/**
 * A DOM class list (`element.classList`, a DOMTokenList) as an ordered
 * sequence of class names without duplicates. `add` appends a name that is
 * absent, `remove` drops every listed name and keeps the order of the rest,
 * and `toggle(name, force)` is `add` when `force` holds and `remove` otherwise.
 */
module TokenLists {

  /** A class list never holds the same name twice. */
  predicate NoDup(s: seq<string>)
  {
    forall i, j :: 0 <= i < j < |s| ==> s[i] != s[j]
  }

  /** `classList.remove(...names)`: drop every name in `names`, keep the rest in order. */
  function Without(s: seq<string>, names: set<string>): (r: seq<string>)
    ensures forall t :: t in r <==> t in s && t !in names
    ensures NoDup(s) ==> NoDup(r)
    ensures |r| <= |s|
  {
    if s == [] then []
    else if s[0] in names then Without(s[1..], names)
    else [s[0]] + Without(s[1..], names)
  }

  /** `classList.add(name)`: append `name` unless it is already present. */
  function With(s: seq<string>, name: string): (r: seq<string>)
    ensures forall t :: t in r <==> t in s || t == name
    ensures NoDup(s) ==> NoDup(r)
    ensures name in s ==> r == s
    ensures name !in s ==> |r| == |s| + 1 && r[..|s|] == s
  {
    if name in s then s else s + [name]
  }

  /** `classList.toggle(name, force)`: afterwards `name` is present iff `force`. */
  function Toggle(s: seq<string>, name: string, force: bool): (r: seq<string>)
    ensures name in r <==> force
    ensures forall t :: t != name ==> (t in r <==> t in s)
    ensures NoDup(s) ==> NoDup(r)
  {
    if force then With(s, name) else Without(s, {name})
  }

  /** Removing names that are not present leaves the list as it was. */
  lemma {:induction false} WithoutAbsent(s: seq<string>, names: set<string>)
    requires forall t :: t in names ==> t !in s
    ensures Without(s, names) == s
  {
    if s != [] {
      assert s[0] in s;
      assert forall t :: t in s[1..] ==> t in s;
      WithoutAbsent(s[1..], names);
      assert s == [s[0]] + s[1..];
    }
  }

  /** Removing twice is removing once: `remove` is idempotent. */
  lemma {:induction false} WithoutIdempotent(s: seq<string>, names: set<string>)
    ensures Without(Without(s, names), names) == Without(s, names)
  {
    WithoutAbsent(Without(s, names), names);
  }
}
