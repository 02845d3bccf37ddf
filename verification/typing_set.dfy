/** The typing set (`typingUsers` in server.js): a JavaScript `Set` of
    connection ids. A `Set` iterates in first-insertion order, which
    `Array.from` exposes, so it is modelled as a sequence without
    repetitions. */
module TypingSet {
  import opened ChatTypes

  type Ids = seq<ConnId>

  /** No id occurs twice. */
  predicate Distinct(ids: Ids)
  {
    forall i, j :: 0 <= i < j < |ids| ==> ids[i] != ids[j]
  }

  /** `typingUsers.add(c)`: members already present keep their place, and
      a new member goes last. */
  function Add(ids: Ids, c: ConnId): (r: Ids)
    ensures forall d :: d in r <==> d in ids || d == c
    ensures ids <= r
    ensures |r| <= |ids| + 1
    ensures Distinct(ids) ==> Distinct(r)
  {
    if c in ids then ids else ids + [c]
  }

  /** `typingUsers.delete(c)`: drops `c`, keeping the others in order. */
  function Remove(ids: Ids, c: ConnId): (r: Ids)
    ensures forall d :: d in r <==> d in ids && d != c
    ensures |r| <= |ids|
    ensures c !in ids ==> r == ids
    ensures Distinct(ids) ==> Distinct(r)
  {
    if |ids| == 0 then []
    else if ids[0] == c then Remove(ids[1..], c)
    else
      var rest := Remove(ids[1..], c);
      assert ids[0] in ids && ids == [ids[0]] + ids[1..];
      assert Distinct(ids) ==> ids[0] !in ids[1..];
      [ids[0]] + rest
  }

  /** Removing the id that was just added last undoes the addition. */
  lemma {:induction false} RemoveAppended(ids: Ids, c: ConnId)
    ensures Remove(ids + [c], c) == Remove(ids, c)
  {
    if |ids| == 0 {
      assert [c][1..] == [];
    } else {
      assert (ids + [c])[1..] == ids[1..] + [c];
      RemoveAppended(ids[1..], c);
    }
  }

  /** `delete` after `add` of the same id leaves the set as `delete`
      alone would, and as it was when the id was not a member. */
  lemma RemoveAdd(ids: Ids, c: ConnId)
    ensures Remove(Add(ids, c), c) == Remove(ids, c)
    ensures c !in ids ==> Remove(Add(ids, c), c) == ids
  {
    if c !in ids {
      RemoveAppended(ids, c);
    }
  }

  /** Removing from a set in two parts removes from each part: the ids
      that stay keep their order. */
  lemma {:induction false} RemoveAppend(a: Ids, b: Ids, c: ConnId)
    ensures Remove(a + b, c) == Remove(a, c) + Remove(b, c)
  {
    if |a| == 0 {
      assert a + b == b;
    } else {
      assert (a + b)[1..] == a[1..] + b;
      RemoveAppend(a[1..], b, c);
    }
  }

  /** Removing an id that occurs only at position k closes the gap it
      leaves: the ids before and after it keep their order. In a set
      without repeats every member occurs only at its own position. */
  lemma RemoveAt(ids: Ids, k: nat)
    requires k < |ids|
    requires forall j :: 0 <= j < |ids| && j != k ==> ids[j] != ids[k]
    ensures Remove(ids, ids[k]) == ids[..k] + ids[k + 1..]
  {
    var c, before, after := ids[k], ids[..k], ids[k + 1..];
    assert ids == before + ([c] + after);
    assert c !in before by {
      forall i | 0 <= i < |before|
        ensures before[i] != c
      {
        assert before[i] == ids[i];
      }
    }
    assert c !in after by {
      forall i | 0 <= i < |after|
        ensures after[i] != c
      {
        assert after[i] == ids[k + 1 + i];
      }
    }
    RemoveAppend(before, [c] + after, c);
    RemoveAppend([c], after, c);
    assert Remove([c], c) == [] by {
      assert [c][1..] == [];
    }
  }
}
