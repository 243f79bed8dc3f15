/**
 * How a property's name and the names of its generated accessors are derived
 * from the name of the getter that declares it (`ImmutableProp`'s constructor).
 * Letters are ASCII letters.
 */
module AccessorNames {
  import opened AptTypes

  predicate IsUpper(c: char) { 'A' <= c <= 'Z' }

  predicate IsLower(c: char) { 'a' <= c <= 'z' }

  function ToLower(c: char): char
  {
    if IsUpper(c) then (c as int - 'A' as int + 'a' as int) as char else c
  }

  function ToUpper(c: char): char
  {
    if IsLower(c) then (c as int - 'a' as int + 'A' as int) as char else c
  }

  /** The string with its first letter upper-cased. */
  function Capitalize(s: string): (r: string)
    requires s != ""
    ensures |r| == |s| && r[1..] == s[1..]
  {
    [ToUpper(s[0])] + s[1..]
  }

  /** The names derived from one getter. */
  datatype Accessors = Accessors(
    name: string,
    setterName: string,
    applierName: string,
    adderByName: string,
    beanStyle: bool,
    loadedStateName: string,
    visibleName: string)

  /** `isXxx()` returning primitive boolean, while the `keepIsPrefix` option is off. */
  predicate HasIsPrefix(getter: string, keepIsPrefix: bool, returnType: TypeRef)
  {
    && !keepIsPrefix
    && returnType == Primitive(BooleanKind)
    && |getter| > 2 && getter[..2] == "is" && IsUpper(getter[2])
  }

  /** `getXxx()`, whatever it returns. */
  predicate HasGetPrefix(getter: string)
  {
    |getter| > 3 && getter[..3] == "get" && IsUpper(getter[3])
  }

  function LoadedStateNameOf(name: string): string { "__" + name + "Loaded" }

  function VisibleNameOf(name: string): string { "__" + name + "Visible" }

  /**
   * The name derivation of the constructor. A bean-style getter gives the name
   * that follows its prefix with a lower-case first letter; any other getter is
   * its own name. Whatever the style, every sibling accessor is a fixed prefix
   * followed by the capitalised name, so the getter and all accessors can be
   * recovered from the name and the style alone.
   */
  function DeriveAccessors(getter: string, keepIsPrefix: bool, returnType: TypeRef): (a: Accessors)
    requires getter != ""
    ensures a.name != ""
    ensures a.beanStyle <==> HasIsPrefix(getter, keepIsPrefix, returnType) || HasGetPrefix(getter)
    ensures HasIsPrefix(getter, keepIsPrefix, returnType) ==>
              getter == "is" + Capitalize(a.name) && IsLower(a.name[0])
    ensures !HasIsPrefix(getter, keepIsPrefix, returnType) && HasGetPrefix(getter) ==>
              getter == "get" + Capitalize(a.name) && IsLower(a.name[0])
    ensures !a.beanStyle ==> a.name == getter
    ensures a.setterName == "set" + Capitalize(a.name)
    ensures a.applierName == "apply" + Capitalize(a.name)
    ensures a.adderByName == "addInto" + Capitalize(a.name)
    ensures a.loadedStateName == LoadedStateNameOf(a.name)
    ensures a.visibleName == VisibleNameOf(a.name)
  {
    var (name, suffix, beanStyle) :=
      if HasIsPrefix(getter, keepIsPrefix, returnType) then
        ([ToLower(getter[2])] + getter[3..], getter[2..], true)
      else if HasGetPrefix(getter) then
        ([ToLower(getter[3])] + getter[4..], getter[3..], true)
      else
        (getter, [ToUpper(getter[0])] + getter[1..], false);
    assert HasIsPrefix(getter, keepIsPrefix, returnType) ==> getter == "is" + getter[2..];
    assert HasGetPrefix(getter) ==> getter == "get" + getter[3..];
    Accessors(
      name,
      "set" + suffix,
      "apply" + suffix,
      "addInto" + suffix,
      beanStyle,
      LoadedStateNameOf(name),
      VisibleNameOf(name))
  }

  /** Inverse of the `get` style: the getter of a lower-case name gives back that name. */
  lemma GetterRoundTrip(name: string, keepIsPrefix: bool, returnType: TypeRef)
    requires name != "" && IsLower(name[0])
    ensures var a := DeriveAccessors("get" + Capitalize(name), keepIsPrefix, returnType);
            a.name == name && a.beanStyle && a.setterName == "set" + Capitalize(name)
  {
  }

  /** Inverse of the `is` style: a boolean getter `isXxx` gives back `xxx` unless
      `keepIsPrefix` is on, in which case the getter is its own name. */
  lemma IsGetterRoundTrip(name: string, keepIsPrefix: bool)
    requires name != "" && IsLower(name[0])
    ensures var a := DeriveAccessors("is" + Capitalize(name), keepIsPrefix, Primitive(BooleanKind));
            if keepIsPrefix then a.name == "is" + Capitalize(name) && !a.beanStyle
            else a.name == name && a.beanStyle
  {
  }

  /** A boxed `Boolean` getter named `isXxx` is not bean style: its name keeps the prefix. */
  lemma BoxedBooleanKeepsIsPrefix(name: string, keepIsPrefix: bool)
    requires name != "" && IsLower(name[0])
    ensures var g := "is" + Capitalize(name);
            DeriveAccessors(g, keepIsPrefix, Declared("java.lang.Boolean", [])).name == g
  {
    var g := "is" + Capitalize(name);
    assert g[..3] != "get";
  }

  /** Loaded-state and visibility field names never collide, and each determines the property name. */
  lemma StateFieldNamesDistinct(n1: string, n2: string)
    ensures LoadedStateNameOf(n1) != VisibleNameOf(n2)
    ensures LoadedStateNameOf(n1) == LoadedStateNameOf(n2) ==> n1 == n2
    ensures VisibleNameOf(n1) == VisibleNameOf(n2) ==> n1 == n2
  {
    var l1, v2 := LoadedStateNameOf(n1), VisibleNameOf(n2);
    assert l1[|l1| - 1] == 'd' && v2[|v2| - 1] == 'e';
    if LoadedStateNameOf(n1) == LoadedStateNameOf(n2) {
      assert n1 == LoadedStateNameOf(n1)[2..2 + |n1|];
      assert n2 == LoadedStateNameOf(n2)[2..2 + |n2|];
    }
    if VisibleNameOf(n1) == VisibleNameOf(n2) {
      assert n1 == VisibleNameOf(n1)[2..2 + |n1|];
      assert n2 == VisibleNameOf(n2)[2..2 + |n2|];
    }
  }
}
