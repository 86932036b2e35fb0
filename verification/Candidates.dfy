/** The list of discovered working copies: no root twice, and each with the deepest known one around it
    as its parent. */
module Candidates {
  import opened Options
  import opened Paths

  // ---- On keys ----

  /** The deepest of the keys above a key: it lies below every other one above it. */
  predicate IsDeepest(keys: seq<string>, key: string, i: nat) {
    && i < |keys|
    && IsDescendant(key, keys[i])
    && forall j :: 0 <= j < |keys| && IsDescendant(key, keys[j]) ==>
      keys[j] == keys[i] || IsDescendant(keys[i], keys[j])
  }

  /** Where the nearest key above a key is, if there is one. */
  predicate IsNearest(keys: seq<string>, key: string, at: Option<nat>) {
    match at
    case None => forall i :: 0 <= i < |keys| ==> !IsDescendant(key, keys[i])
    case Some(i) => IsDeepest(keys, key, i)
  }

  /** The longest key above a key is the deepest: what lies above a path is a chain. */
  lemma LongestIsDeepest(keys: seq<string>, key: string, i: nat)
    requires i < |keys| && IsDescendant(key, keys[i])
    requires forall j :: 0 <= j < |keys| && IsDescendant(key, keys[j]) ==> |keys[j]| <= |keys[i]|
    ensures IsDeepest(keys, key, i)
  {
    forall j | 0 <= j < |keys| && IsDescendant(key, keys[j])
      ensures keys[j] == keys[i] || IsDescendant(keys[i], keys[j]) {
      ChainAbove(keys[j], keys[i], key);
    }
  }

  method NearestParent(keys: seq<string>, key: string) returns (at: Option<nat>)
    ensures IsNearest(keys, key, at)
  {
    at := None;
    for i := 0 to |keys|
      invariant at.None? ==> forall j :: 0 <= j < i ==> !IsDescendant(key, keys[j])
      invariant at.Some? ==> at.value < i && IsDescendant(key, keys[at.value])
      invariant at.Some? ==> forall j :: 0 <= j < i && IsDescendant(key, keys[j]) ==> |keys[j]| <= |keys[at.value]|
    {
      if IsDescendant(key, keys[i]) && (at.None? || |keys[i]| >= |keys[at.value]|) {
        at := Some(i);
      }
    }
    if at.Some? {
      LongestIsDeepest(keys, key, at.value);
    }
  }

  /** No deeper key before a shallower one. */
  predicate ShallowFirst(keys: seq<string>) {
    forall i, j :: 0 <= i < j < |keys| ==> |Split(keys[i])| <= |Split(keys[j])|
  }

  /** In that order whatever lies above a key stands before it, so the nearest of those before it is the
      nearest of all. */
  lemma NearestBeforeIsNearestOfAll(keys: seq<string>, k: nat, at: Option<nat>)
    requires ShallowFirst(keys) && k < |keys| && IsNearest(keys[..k], keys[k], at)
    ensures IsNearest(keys, keys[k], at)
  {
    forall j | k <= j < |keys| ensures !IsDescendant(keys[k], keys[j]) {
      DescendantIsComponentPrefix(keys[k], keys[j]);
    }
    assert forall j :: 0 <= j < k ==> keys[..k][j] == keys[j];
  }

  // ---- Candidates ----

  datatype Candidate = Candidate(root: string, nested: bool, external: bool, parent: Option<string>)

  function Keys(candidates: seq<Candidate>): (keys: seq<string>)
    ensures |keys| == |candidates| && forall i :: 0 <= i < |keys| ==> keys[i] == AbsoluteKey(candidates[i].root)
  {
    seq(|candidates|, i requires 0 <= i < |candidates| => AbsoluteKey(candidates[i].root))
  }

  /** The parent of a new candidate: the nearest one listed, or else the fallback if that lies above. */
  predicate RightParent(candidates: seq<Candidate>, key: string, fallback: Option<string>, parent: Option<string>) {
    if exists i :: 0 <= i < |candidates| && IsDescendant(key, Keys(candidates)[i]) then
      exists i :: 0 <= i < |candidates| && IsDeepest(Keys(candidates), key, i) && parent == Some(candidates[i].root)
    else
      parent == if fallback.Some? && IsDescendant(key, AbsoluteKey(fallback.value)) then fallback else None
  }

  method ChooseParent(candidates: seq<Candidate>, key: string, fallback: Option<string>)
      returns (parent: Option<string>)
    ensures RightParent(candidates, key, fallback, parent)
  {
    var keys := Keys(candidates);
    var at := NearestParent(keys, key);
    if at.Some? {
      return Some(candidates[at.value].root);
    }
    return if fallback.Some? && IsDescendant(key, AbsoluteKey(fallback.value)) then fallback else None;
  }

  /** The keys that were seen are those in the list, and no two in the list are the same. */
  ghost predicate SeenAre(keys: seq<string>, seen: set<string>) {
    && (forall key :: key in seen <==> key in keys)
    && (forall i, j :: 0 <= i < j < |keys| ==> keys[i] != keys[j])
  }

  lemma SeenOneMore(keys: seq<string>, seen: set<string>, key: string)
    requires SeenAre(keys, seen) && key !in seen
    ensures SeenAre(keys + [key], seen + {key})
  {
    forall i, j | 0 <= i < j < |keys + [key]| ensures (keys + [key])[i] != (keys + [key])[j] {
      assert keys[i] in keys;
    }
  }

  function NewCandidate(root: string, external: bool, parent: Option<string>): Candidate {
    Candidate(root, parent.Some? && !external, external, parent)
  }

  class CandidateList {
    var candidates: seq<Candidate>
    var seen: set<string>

    ghost predicate Valid()
      reads this
    {
      SeenAre(Keys(candidates), seen)
    }

    constructor ()
      ensures Valid() && candidates == []
    {
      candidates, seen := [], {};
    }

    /** A working copy that is neither ignored nor listed yet is listed, with its parent. */
    method Push(ignored: set<string>, root: string, fallback: Option<string>, external: bool)
        returns (parent: Option<string>)
      requires Valid()
      modifies this
      ensures Valid()
      ensures
        if AbsoluteKey(root) in ignored || AbsoluteKey(root) in Keys(old(candidates)) then candidates == old(candidates)
        else
          && RightParent(old(candidates), AbsoluteKey(root), fallback, parent)
          && candidates == old(candidates) + [NewCandidate(root, external, parent)]
    {
      var key := AbsoluteKey(root);
      if key in ignored || key in seen {
        return None;
      }
      parent := ChooseParent(candidates, key, fallback);
      KeysOfLonger(candidates, NewCandidate(root, external, parent));
      SeenOneMore(Keys(candidates), seen, key);
      seen := seen + {key};
      candidates := candidates + [NewCandidate(root, external, parent)];
    }
  }

  lemma KeysOfLonger(candidates: seq<Candidate>, c: Candidate)
    ensures Keys(candidates + [c]) == Keys(candidates) + [AbsoluteKey(c.root)]
  {
  }
}
