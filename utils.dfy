/** Small building blocks shared by the rest of the model: an optional value,
    flattening a sequence of groups, joining strings with a separator (as
    Python's `str.join` and JavaScript's `Array.prototype.join` do) and a
    substring test (JavaScript's `String.prototype.includes`). */
module Utils {

  datatype Option<+T> = None | Some(value: T) {
    function GetOr(default: T): T {
      match this
      case Some(v) => v
      case None => default
    }
  }

  /** A non-empty sequence is its front followed by its last element. */
  lemma Snoc<T>(s: seq<T>)
    requires |s| > 0
    ensures s[..|s| - 1] + [s[|s| - 1]] == s
  {
  }

  lemma AppendAssoc<T>(a: seq<T>, b: seq<T>, c: seq<T>)
    ensures a + b + c == a + (b + c)
  {
  }

  lemma FullPrefix<T>(s: seq<T>)
    ensures s[..|s|] == s
  {
  }

  /** The concatenation of all groups, in order. */
  function Flatten<T>(groups: seq<seq<T>>): (r: seq<T>)
    ensures groups == [] ==> r == []
  {
    if |groups| == 0 then [] else Flatten(groups[..|groups| - 1]) + groups[|groups| - 1]
  }

  lemma {:induction false} FlattenAppend<T>(a: seq<seq<T>>, b: seq<seq<T>>)
    ensures Flatten(a + b) == Flatten(a) + Flatten(b)
    decreases |b|
  {
    if |b| == 0 {
      assert a + b == a;
    } else {
      var b' := b[..|b| - 1];
      assert (a + b)[..|a + b| - 1] == a + b';
      FlattenAppend(a, b');
    }
  }

  /** Adding a group at the end adds its items at the end. */
  lemma FlattenSnoc<T>(groups: seq<seq<T>>, g: seq<T>)
    ensures Flatten(groups + [g]) == Flatten(groups) + g
  {
    assert (groups + [g])[..|groups|] == groups;
  }

  lemma FlattenSingle<T>(g: seq<T>)
    ensures Flatten([g]) == g
  {
    assert [g][..0] == [];
  }

  /** Appending `x` to group `j` appends `x` to the multiset of all items. */
  lemma FlattenExtendGroup<T>(groups: seq<seq<T>>, j: nat, x: T)
    requires j < |groups|
    ensures multiset(Flatten(groups[j := groups[j] + [x]])) == multiset(Flatten(groups)) + multiset{x}
  {
    var before, after := groups[..j], groups[j + 1..];
    assert groups == before + [groups[j]] + after;
    assert groups[j := groups[j] + [x]] == before + [groups[j] + [x]] + after;
    FlattenAppend(before + [groups[j]], after);
    FlattenAppend(before, [groups[j]]);
    FlattenAppend(before + [groups[j] + [x]], after);
    FlattenAppend(before, [groups[j] + [x]]);
    FlattenSingle(groups[j]);
    FlattenSingle(groups[j] + [x]);
  }

  /** `parts[0] + sep + parts[1] + ... + sep + parts[n-1]`; the empty list joins to "". */
  function Join(parts: seq<string>, sep: string): (r: string)
    ensures |parts| == 1 ==> r == parts[0]
  {
    if |parts| == 0 then ""
    else if |parts| == 1 then parts[0]
    else Join(parts[..|parts| - 1], sep) + sep + parts[|parts| - 1]
  }

  /** The length of a join: every part plus one separator between each pair. */
  lemma {:induction false} JoinLength(parts: seq<string>, sep: string)
    requires |parts| > 0
    ensures |Join(parts, sep)| == SumLengths(parts) + (|parts| - 1) * |sep|
    decreases |parts|
  {
    if |parts| > 1 {
      var init := parts[..|parts| - 1];
      JoinLength(init, sep);
      assert |Join(parts, sep)| == |Join(init, sep)| + |sep| + |parts[|parts| - 1]|;
      MulSucc(|init| - 1, |sep|);
    }
  }

  /** A join of parts and a separator that avoid a class of characters avoids it too. */
  lemma {:induction false} JoinAvoids(parts: seq<string>, sep: string, p: char -> bool)
    requires forall i, k :: 0 <= i < |parts| && 0 <= k < |parts[i]| ==> !p(parts[i][k])
    requires forall k :: 0 <= k < |sep| ==> !p(sep[k])
    ensures forall k :: 0 <= k < |Join(parts, sep)| ==> !p(Join(parts, sep)[k])
    decreases |parts|
  {
    if |parts| > 1 {
      var init := parts[..|parts| - 1];
      JoinAvoids(init, sep, p);
      var a, b := Join(init, sep), parts[|parts| - 1];
      forall k | 0 <= k < |a + sep + b|
        ensures !p((a + sep + b)[k])
      {
        if k >= |a| + |sep| {
          assert (a + sep + b)[k] == b[k - |a| - |sep|];
        }
      }
    }
  }

  /** An item of a group is an item of the flattening. */
  lemma {:induction false} FlattenMember<T>(groups: seq<seq<T>>, j: nat, x: T)
    requires j < |groups| && x in groups[j]
    ensures x in Flatten(groups)
    decreases |groups|
  {
    if j < |groups| - 1 {
      FlattenMember(groups[..|groups| - 1], j, x);
    }
  }

  lemma MulSucc(a: int, b: int)
    ensures (a + 1) * b == a * b + b
  {
  }

  function SumLengths(parts: seq<string>): nat {
    if |parts| == 0 then 0 else SumLengths(parts[..|parts| - 1]) + |parts[|parts| - 1]|
  }

  /** `sub` occurs in `s` at index `i`. */
  predicate OccursAt<T(==)>(s: seq<T>, sub: seq<T>, i: nat) {
    i + |sub| <= |s| && s[i..i + |sub|] == sub
  }

  /** Substring test, `s.includes(sub)`. */
  ghost predicate Contains<T>(s: seq<T>, sub: seq<T>) {
    exists i: nat :: OccursAt(s, sub, i)
  }

  /** An executable substring test, proved equal to `Contains`. */
  function ContainsFrom<T(==)>(s: seq<T>, sub: seq<T>, i: nat): (r: bool)
    requires i <= |s| + 1
    ensures r <==> exists k: nat :: i <= k && OccursAt(s, sub, k)
    decreases |s| + 1 - i
  {
    if i + |sub| > |s| then false
    else if s[i..i + |sub|] == sub then assert OccursAt(s, sub, i); true
    else ContainsFrom(s, sub, i + 1)
  }

  function Includes<T(==)>(s: seq<T>, sub: seq<T>): (r: bool)
    ensures r <==> Contains(s, sub)
  {
    ContainsFrom(s, sub, 0)
  }

  /** The first index, from `from` on, whose element satisfies `p`. */
  function FirstWhere<T>(s: seq<T>, p: T -> bool, from: nat): (r: Option<nat>)
    requires from <= |s|
    ensures r.Some? ==> from <= r.value < |s| && p(s[r.value])
    ensures r.Some? ==> forall j :: from <= j < r.value ==> !p(s[j])
    ensures r.None? <==> forall j :: from <= j < |s| ==> !p(s[j])
    decreases |s| - from
  {
    if from == |s| then None
    else if p(s[from]) then Some(from)
    else FirstWhere(s, p, from + 1)
  }
}
