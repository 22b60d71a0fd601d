/**
 * Python `Enum` lookup semantics over a member list in declaration order.
 * A later member whose value equals an earlier one is an alias of it:
 * lookup by name (`T[name]`) accepts aliases, lookup by value (`T(value)`)
 * returns the first-declared (canonical) member.
 */
module Enums {
  import opened Wrappers

  datatype Member<T> = Member(name: string, value: T)

  /** No two members share a name, as Python requires of an Enum body. */
  ghost predicate DistinctNames<T>(ms: seq<Member<T>>) {
    forall i, j :: 0 <= i < j < |ms| ==> ms[i].name != ms[j].name
  }

  /** Index of the first member at or after `from` called n, if any. */
  function IndexOfNameFrom<T>(ms: seq<Member<T>>, n: string, from: nat): (r: Option<nat>)
    requires from <= |ms|
    ensures r.Some? ==> from <= r.value < |ms| && ms[r.value].name == n
    decreases |ms| - from
  {
    if from == |ms| then None
    else if ms[from].name == n then Some(from)
    else IndexOfNameFrom(ms, n, from + 1)
  }

  /** Index of the first member at or after `from` whose value is v, if any. */
  function IndexOfValueFrom<T(==)>(ms: seq<Member<T>>, v: T, from: nat): (r: Option<nat>)
    requires from <= |ms|
    ensures r.Some? ==> from <= r.value < |ms| && ms[r.value].value == v
    decreases |ms| - from
  {
    if from == |ms| then None
    else if ms[from].value == v then Some(from)
    else IndexOfValueFrom(ms, v, from + 1)
  }

  /** The name search finds the first member so called, or reports that there is none. */
  lemma {:induction false} IndexOfNameFromSpec<T>(ms: seq<Member<T>>, n: string, from: nat)
    requires from <= |ms|
    ensures var r := IndexOfNameFrom(ms, n, from);
      (r.None? <==> forall i :: from <= i < |ms| ==> ms[i].name != n) &&
      (r.Some? ==>
        from <= r.value < |ms| && ms[r.value].name == n &&
        forall j :: from <= j < r.value ==> ms[j].name != n)
    decreases |ms| - from
  {
    if from < |ms| && ms[from].name != n {
      IndexOfNameFromSpec(ms, n, from + 1);
    }
  }

  /** The value search finds the first member with the value, or reports that there is none. */
  lemma {:induction false} IndexOfValueFromSpec<T>(ms: seq<Member<T>>, v: T, from: nat)
    requires from <= |ms|
    ensures var r := IndexOfValueFrom(ms, v, from);
      (r.None? <==> forall i :: from <= i < |ms| ==> ms[i].value != v) &&
      (r.Some? ==>
        from <= r.value < |ms| && ms[r.value].value == v &&
        forall j :: from <= j < r.value ==> ms[j].value != v)
    decreases |ms| - from
  {
    if from < |ms| && ms[from].value != v {
      IndexOfValueFromSpec(ms, v, from + 1);
    }
  }

  /** Index of the member called n, if any. */
  function IndexOfName<T>(ms: seq<Member<T>>, n: string): (r: Option<nat>) {
    IndexOfNameFrom(ms, n, 0)
  }

  /** Index of the first member whose value is v, if any. */
  function IndexOfValue<T(==)>(ms: seq<Member<T>>, v: T): (r: Option<nat>) {
    IndexOfValueFrom(ms, v, 0)
  }

  /** `T[name].value`. */
  function ByName<T>(ms: seq<Member<T>>, n: string): (r: Option<T>) {
    match IndexOfName(ms, n)
    case None => None
    case Some(i) => Some(ms[i].value)
  }

  /** `T(value).name`: the canonical name of the value. */
  function ByValue<T(==)>(ms: seq<Member<T>>, v: T): (r: Option<string>) {
    match IndexOfValue(ms, v)
    case None => None
    case Some(i) => Some(ms[i].name)
  }

  /**
   * Lookup by name gives the value of the first member called n, and None
   * when no member has that name.
   */
  lemma ByNameSpec<T>(ms: seq<Member<T>>, n: string)
    ensures ByName(ms, n).None? <==> forall i :: 0 <= i < |ms| ==> ms[i].name != n
    ensures ByName(ms, n).Some? ==>
      exists i :: 0 <= i < |ms| && ms[i].name == n && ms[i].value == ByName(ms, n).value &&
        forall j :: 0 <= j < i ==> ms[j].name != n
  {
    IndexOfNameFromSpec(ms, n, 0);
  }

  /**
   * Lookup by value gives the name of the first member declared with the
   * value (the canonical one, never a later alias), and None when no member
   * has it.
   */
  lemma ByValueSpec<T>(ms: seq<Member<T>>, v: T)
    ensures ByValue(ms, v).None? <==> forall i :: 0 <= i < |ms| ==> ms[i].value != v
    ensures ByValue(ms, v).Some? ==>
      exists i :: 0 <= i < |ms| && ms[i].value == v && ms[i].name == ByValue(ms, v).value &&
        forall j :: 0 <= j < i ==> ms[j].value != v
  {
    IndexOfValueFromSpec(ms, v, 0);
  }

  /** The name of a value found by value leads back to that value. */
  lemma {:induction false} ValueNameValue<T>(ms: seq<Member<T>>, v: T)
    requires DistinctNames(ms)
    ensures ByValue(ms, v).Some? <==> exists i :: 0 <= i < |ms| && ms[i].value == v
    ensures ByValue(ms, v).Some? ==> ByName(ms, ByValue(ms, v).value) == Some(v)
  {
    IndexOfValueFromSpec(ms, v, 0);
    match IndexOfValue(ms, v)
    case None =>
    case Some(i) =>
      IndexOfNameFromSpec(ms, ms[i].name, 0);
      var j := IndexOfName(ms, ms[i].name).value;
      assert j == i;
  }

  /**
   * Looking up the member declared at index i by its name gives its value,
   * and looking that value up gives back the same name exactly when no
   * earlier member has the value (the member is not an alias).
   */
  lemma {:induction false} NameValueName<T>(ms: seq<Member<T>>, i: nat)
    requires DistinctNames(ms) && i < |ms|
    ensures ByName(ms, ms[i].name) == Some(ms[i].value)
    ensures ByValue(ms, ms[i].value) == Some(ms[i].name) <==>
      forall j :: 0 <= j < i ==> ms[j].value != ms[i].value
  {
    IndexOfNameFromSpec(ms, ms[i].name, 0);
    IndexOfValueFromSpec(ms, ms[i].value, 0);
    var a := IndexOfName(ms, ms[i].name).value;
    assert a == i;
    var b := IndexOfValue(ms, ms[i].value).value;
    assert b <= i;
    if b < i {
      assert ms[b].name != ms[i].name;
    }
  }
}
