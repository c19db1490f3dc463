/**
 * Rooted logs: log matching, and what RaftLog::maybe_append does to a follower's log when the
 * entries are a slice of the leader's.
 */
module LogMatching {
  import opened Proto
  import opened NodeSpec
  import opened History

  /** Same index, same term: the logs are equal through that index. */
  lemma Matching(reigns: map<Term, Reign>, a: seq<Entry>, ta: Term, b: seq<Entry>, tb: Term, k: nat)
    requires Rooted(reigns, a, ta) && Rooted(reigns, b, tb)
    requires k <= |a| && k <= |b| && TermAt(a, k) == TermAt(b, k)
    ensures Agree(a, b, k)
  {
    if k > 0 {
      assert a[k - 1].term == b[k - 1].term;
    }
  }

  lemma TermsGrow(reigns: map<Term, Reign>, log: seq<Entry>, t: Term, i: nat, j: nat)
    requires Rooted(reigns, log, t) && i <= j < |log|
    requires Rooted(reigns, reigns[log[j].term].log, log[j].term)
    ensures log[i].term <= log[j].term
  {
    assert reigns[log[j].term].log[i] == log[i];
  }

  /** find_conflict returns the first index where the terms differ; 0 when they never do. */
  lemma {:induction false} ConflictIsFirst(log: seq<Entry>, prev: nat, entries: seq<Entry>)
    requires forall i | 0 <= i < |entries| :: entries[i].index == prev + 1 + i
    ensures var ci := FindConflict(log, entries);
            && (ci == 0 ==> forall i | 0 <= i < |entries| :: TermAt(log, prev + 1 + i) == entries[i].term)
            && (ci != 0 ==>
                  && prev < ci <= prev + |entries|
                  && TermAt(log, ci) != entries[ci - 1 - prev].term
                  && forall i | 0 <= i < ci - 1 - prev :: TermAt(log, prev + 1 + i) == entries[i].term)
    decreases |entries|
  {
    if entries != [] && TermAt(log, entries[0].index) == entries[0].term {
      var rest := entries[1..];
      ConflictIsFirst(log, prev + 1, rest);
      var ci := FindConflict(log, rest);
      assert FindConflict(log, entries) == ci;
      forall i | 0 <= i < |entries| && (ci == 0 || i < ci - 1 - prev)
        ensures TermAt(log, prev + 1 + i) == entries[i].term
      {
        if i > 0 {
          assert entries[i] == rest[i - 1];
          assert TermAt(log, prev + 1 + 1 + (i - 1)) == rest[i - 1].term;
        }
      }
    }
  }

  /** entries is what follows index prev in the leader's log. */
  ghost predicate SliceOf(leaderLog: seq<Entry>, prev: nat, entries: seq<Entry>) {
    && prev + |entries| <= |leaderLog|
    && forall i | 0 <= i < |entries| :: entries[i] == leaderLog[prev + i]
  }

  /** Where the conflict lies, when the follower's log and the leader's are both rooted. */
  lemma ConflictAgainstLeader(reigns: map<Term, Reign>, log: seq<Entry>, leaderLog: seq<Entry>, t: Term,
                              prev: nat, entries: seq<Entry>)
    requires Rooted(reigns, log, t) && Rooted(reigns, leaderLog, t)
    requires SliceOf(leaderLog, prev, entries) && TermAt(log, prev) == TermAt(leaderLog, prev)
    ensures var ci := FindConflict(log, entries);
            && (ci == 0 ==> Agree(leaderLog, log, prev + |entries|))
            && (ci != 0 ==>
                  && prev < ci <= prev + |entries| && ci <= |log| + 1
                  && Agree(leaderLog, log, ci - 1)
                  && TermAt(log, ci) != leaderLog[ci - 1].term)
  {
    ConflictIsFirst(log, prev, entries);
    assert prev <= |log|;
    Matching(reigns, leaderLog, t, log, t, prev);
    var ci := FindConflict(log, entries);
    var p := if ci == 0 then prev + |entries| else ci - 1;
    if p > prev {
      assert TermAt(log, prev + 1 + (p - 1 - prev)) == entries[p - 1 - prev].term;
      assert TermAt(log, p) == leaderLog[p - 1].term;
      assert p <= |log|;
      Matching(reigns, leaderLog, t, log, t, p);
    }
  }

  /** After maybe_append the follower agrees with the leader through the last new index. */
  lemma MergeAgrees(reigns: map<Term, Reign>, log: seq<Entry>, leaderLog: seq<Entry>, t: Term,
                    prev: nat, entries: seq<Entry>)
    requires Rooted(reigns, log, t) && Rooted(reigns, leaderLog, t)
    requires SliceOf(leaderLog, prev, entries) && TermAt(log, prev) == TermAt(leaderLog, prev)
    ensures Agree(leaderLog, Merge(log, prev, entries), prev + |entries|)
    ensures FindConflict(log, entries) == 0 ==> Merge(log, prev, entries) == log
    ensures FindConflict(log, entries) != 0 ==> |Merge(log, prev, entries)| == prev + |entries|
  {
    ConflictAgainstLeader(reigns, log, leaderLog, t, prev, entries);
    var ci, m := FindConflict(log, entries), Merge(log, prev, entries);
    if ci != 0 {
      assert m == log[..ci - 1] + entries[ci - 1 - prev..];
      forall i | 0 <= i < prev + |entries| ensures leaderLog[i] == m[i] {
        if i >= ci - 1 {
          assert m[i] == entries[i - prev];
        }
      }
    }
  }

  lemma MergePrefix(log: seq<Entry>, prev: nat, entries: seq<Entry>, k: nat)
    requires var ci := FindConflict(log, entries); k <= |log| && (ci == 0 || k < ci)
    ensures Agree(log, Merge(log, prev, entries), k)
  {
  }

  /** maybe_append never loses an index at which the follower already agreed with the leader. */
  lemma MergeKeeps(reigns: map<Term, Reign>, log: seq<Entry>, leaderLog: seq<Entry>, t: Term,
                   prev: nat, entries: seq<Entry>, k: nat)
    requires Rooted(reigns, log, t) && Rooted(reigns, leaderLog, t)
    requires SliceOf(leaderLog, prev, entries) && TermAt(log, prev) == TermAt(leaderLog, prev)
    requires Agree(leaderLog, log, k)
    ensures Agree(leaderLog, Merge(log, prev, entries), k)
    ensures FindConflict(log, entries) != 0 ==> k < FindConflict(log, entries)
  {
    ConflictAgainstLeader(reigns, log, leaderLog, t, prev, entries);
    var ci, m := FindConflict(log, entries), Merge(log, prev, entries);
    assert ci != 0 ==> k < ci;
    MergePrefix(log, prev, entries, k);
    forall i | 0 <= i < k ensures leaderLog[i] == m[i] {
      assert leaderLog[i] == log[i];
    }
  }

  lemma MergeRooted(reigns: map<Term, Reign>, log: seq<Entry>, leaderLog: seq<Entry>, t: Term,
                    prev: nat, entries: seq<Entry>)
    requires Rooted(reigns, log, t) && Rooted(reigns, leaderLog, t)
    requires SliceOf(leaderLog, prev, entries) && TermAt(log, prev) == TermAt(leaderLog, prev)
    ensures Rooted(reigns, Merge(log, prev, entries), t)
  {
    MergeAgrees(reigns, log, leaderLog, t, prev, entries);
    if FindConflict(log, entries) != 0 {
      PrefixRooted(reigns, leaderLog, Merge(log, prev, entries), t);
    }
  }

  lemma PrefixRooted(reigns: map<Term, Reign>, log: seq<Entry>, prefix: seq<Entry>, t: Term)
    requires Rooted(reigns, log, t) && Agree(log, prefix, |prefix|)
    ensures Rooted(reigns, prefix, t)
  {
    forall i | 0 <= i < |prefix|
      ensures prefix[i].index == i + 1 && 1 <= prefix[i].term <= t && prefix[i].term in reigns
              && Agree(prefix, reigns[prefix[i].term].log, i + 1)
    {
      assert log[i] == prefix[i];
    }
  }
}
