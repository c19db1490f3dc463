/** Majorities of a fixed voter set (raft-kv/raft/raft.h:68-70). */
module Quorum {
  import opened Proto

  function Size(voters: set<Id>): nat { |voters| / 2 + 1 }

  predicate IsQuorum(voters: set<Id>, q: set<Id>) {
    q <= voters && |q| >= Size(voters)
  }

  /** A quorum is any set of more than half of the voters. */
  lemma QuorumIsMajority(voters: set<Id>, q: set<Id>)
    ensures IsQuorum(voters, q) <==> q <= voters && 2 * |q| > |voters|
  {
  }

  lemma SubsetSize<T>(a: set<T>, b: set<T>)
    requires a <= b
    ensures |a| <= |b|
  {
    assert b == a + (b - a);
  }

  /** Without s there is no majority. */
  predicate Blocks(voters: set<Id>, s: set<Id>) {
    !IsQuorum(voters, voters - s)
  }

  lemma MajorityBlocks(voters: set<Id>, q: set<Id>)
    requires IsQuorum(voters, q)
    ensures Blocks(voters, q)
  {
    if IsQuorum(voters, voters - q) {
      var j := Intersect(voters, q, voters - q);
    }
  }

  /** One of two voters, or the only one, is enough. */
  lemma OneOfTwoBlocks(voters: set<Id>, j: Id)
    requires j in voters && |voters| <= 2
    ensures Blocks(voters, {j})
  {
    assert |voters - {j}| == |voters| - 1;
  }

  lemma MoreBlocks(voters: set<Id>, s: set<Id>, s': set<Id>)
    requires Blocks(voters, s) && s <= s'
    ensures Blocks(voters, s')
  {
    SubsetSize(voters - s', voters - s);
  }

  /** Any two majorities share a voter. */
  lemma Intersect(voters: set<Id>, p: set<Id>, q: set<Id>) returns (j: Id)
    requires IsQuorum(voters, p) && IsQuorum(voters, q)
    ensures j in p && j in q && j in voters
  {
    if p * q == {} {
      assert |p + q| == |p| + |q|;
      SubsetSize(p + q, voters);
    }
    assert p * q != {};
    j :| j in p * q;
  }

  /** What a leader knows of voter j; nothing known counts as 0. */
  function Known(matched: map<Id, nat>, j: Id): nat {
    if j in matched then matched[j] else 0
  }

  /** The voters known to hold the log through index k. */
  function Backers(voters: set<Id>, matched: map<Id, nat>, k: nat): set<Id> {
    set j | j in voters && Known(matched, j) >= k
  }

  predicate Backed(voters: set<Id>, matched: map<Id, nat>, k: nat) {
    |Backers(voters, matched, k)| >= Size(voters)
  }

  lemma BackedIsDownwardClosed(voters: set<Id>, matched: map<Id, nat>, k: nat, k': nat)
    requires k' <= k && Backed(voters, matched, k)
    ensures Backed(voters, matched, k')
  {
    SubsetSize(Backers(voters, matched, k), Backers(voters, matched, k'));
  }

  lemma {:induction false} BoundExists(voters: set<Id>, matched: map<Id, nat>) returns (hi: nat)
    ensures forall j | j in voters :: Known(matched, j) < hi
  {
    if voters == {} {
      hi := 0;
    } else {
      var x :| x in voters;
      hi := BoundExists(voters - {x}, matched);
      if Known(matched, x) >= hi {
        hi := Known(matched, x) + 1;
      }
    }
  }

  lemma {:induction false} SearchDown(voters: set<Id>, matched: map<Id, nat>, hi: nat) returns (k: nat)
    requires Backed(voters, matched, 0) && !Backed(voters, matched, hi)
    ensures k < hi && Backed(voters, matched, k) && !Backed(voters, matched, k + 1)
    decreases hi
  {
    if hi > 0 && Backed(voters, matched, hi - 1) {
      k := hi - 1;
    } else {
      k := SearchDown(voters, matched, hi - 1);
    }
  }

  lemma MajorityIndexExists(voters: set<Id>, matched: map<Id, nat>)
    requires voters != {}
    ensures exists k: nat :: Backed(voters, matched, k) && !Backed(voters, matched, k + 1)
  {
    assert Backers(voters, matched, 0) == voters;
    var hi := BoundExists(voters, matched);
    assert Backers(voters, matched, hi) == {};
    var k := SearchDown(voters, matched, hi);
  }

  /** The greatest index that a majority of the voters is known to hold. */
  ghost function MajorityIndex(voters: set<Id>, matched: map<Id, nat>): (k: nat)
    requires voters != {}
    ensures Backed(voters, matched, k)
    ensures forall k': nat :: Backed(voters, matched, k') ==> k' <= k
  {
    MajorityIndexExists(voters, matched);
    var k: nat :| Backed(voters, matched, k) && !Backed(voters, matched, k + 1);
    assert forall k': nat :: Backed(voters, matched, k') ==> k' <= k by {
      forall k': nat | Backed(voters, matched, k') ensures k' <= k {
        if k' > k {
          BackedIsDownwardClosed(voters, matched, k', k + 1);
        }
      }
    }
    k
  }
}
