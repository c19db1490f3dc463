/**
 * The guarantees of module Theorems, each with its exact condition: it holds in every run if and only
 * if the configuration is not exposed. The runs in which it does not are those of PreVoteFlaw, LogFlaw
 * and FatalFlaw, all of them disciplined. That nothing is thrown, two voters keep although exposed.
 */
module Conditions {
  import opened Proto
  import opened NodeSpec
  import opened Cluster
  import opened Election
  import opened History
  import opened PreVoteFlaw
  import opened SendWindow
  import LogFlaw
  import FatalFlaw
  import Theorems
  import TwoVoters

  // ---------------------------------------------------------------- logs and commits

  /** The statement of Theorems.LogMatchingHolds, for one run. */
  ghost predicate Matches(cfg: Config, boot: seq<Entry>, run: seq<State>, k: nat, l: nat, i: Id, j: Id, index: nat) {
    && IsRun(cfg, boot, run) && k < |run| && l < |run| && i in cfg.voters && j in cfg.voters
    && index <= |run[k].nodes[i].log| && index <= |run[l].nodes[j].log|
    && TermAt(run[k].nodes[i].log, index) == TermAt(run[l].nodes[j].log, index)
    ==> Agree(run[k].nodes[i].log, run[l].nodes[j].log, index)
  }

  ghost predicate LogMatchingSafe(cfg: Config) {
    forall boot, run, k: nat, l: nat, i, j, index: nat :: Matches(cfg, boot, run, k, l, i, j, index)
  }

  /** The statement of Theorems.StateMachineSafety. */
  ghost predicate SameCommits(cfg: Config, boot: seq<Entry>, run: seq<State>, k: nat, l: nat, i: Id, j: Id) {
    && IsRun(cfg, boot, run) && k < |run| && l < |run| && i in cfg.voters && j in cfg.voters
    ==> (var a, b := run[k].nodes[i], run[l].nodes[j];
         Agree(a.log, b.log, Min(a.commit, b.commit)))
  }

  ghost predicate StateMachineSafe(cfg: Config) {
    forall boot, run, k: nat, l: nat, i, j :: SameCommits(cfg, boot, run, k, l, i, j)
  }

  /** The statement of Theorems.LeaderCompleteness. */
  ghost predicate HasCommitted(cfg: Config, boot: seq<Entry>, run: seq<State>, k: nat, l: nat, i: Id, j: Id, u: Term) {
    && IsRun(cfg, boot, run) && k < |run| && i in cfg.voters
    && Theorems.Leads(cfg, run, l, j, u) && run[k].nodes[i].term < u
    ==> Agree(run[k].nodes[i].log, run[l].nodes[j].log, run[k].nodes[i].commit)
  }

  ghost predicate LeaderComplete(cfg: Config) {
    forall boot, run, k: nat, l: nat, i, j, u :: HasCommitted(cfg, boot, run, k, l, i, j, u)
  }

  /** The statement of Theorems.AckSoundness. */
  ghost predicate AckHolds(cfg: Config, boot: seq<Entry>, run: seq<State>, k: nat, l: nat, m: Message, i: Id) {
    && IsRun(cfg, boot, run) && k <= l < |run|
    && m in run[k].net && m.AppResp? && !m.reject && Theorems.Leads(cfg, run, l, i, m.term)
    ==> && m.from in run[l].nodes
        && (run[l].nodes[m.from].term == m.term ==> Agree(run[l].nodes[i].log, run[l].nodes[m.from].log, m.index))
  }

  ghost predicate AckSound(cfg: Config) {
    forall boot, run, k: nat, l: nat, m, i :: AckHolds(cfg, boot, run, k, l, m, i)
  }

  lemma LastOf(cfg: Config, c: State) returns (run: seq<State>, k: nat)
    requires Reachable(cfg, c)
    ensures IsRun(cfg, [], run) && Disciplined(cfg, run) && k < |run| && run[k] == c
  {
    run :| IsRun(cfg, [], run) && Disciplined(cfg, run) && run[|run| - 1] == c;
    k := |run| - 1;
  }

  lemma ExposedTears(cfg: Config)
    requires cfg.Valid() && Exposed(cfg)
    ensures !LogMatchingSafe(cfg)
  {
    var c, a, b := LogFlaw.TearsApart(cfg);
    var run, k := LastOf(cfg, c);
    assert c.nodes[a].log[1] != c.nodes[b].log[1];
    assert !Matches(cfg, [], run, k, k, a, b, 2);
  }

  lemma ExposedSplits(cfg: Config)
    requires cfg.Valid() && Exposed(cfg)
    ensures !StateMachineSafe(cfg) && !AckSound(cfg)
  {
    var c, a, b, r := LogFlaw.Splits(cfg);
    var run, k := LastOf(cfg, c);
    assert c.nodes[a].log[1] != c.nodes[b].log[1];
    assert !SameCommits(cfg, [], run, k, k, a, b);
    assert !AckHolds(cfg, [], run, k, k, AppResp(a, b, 2, 2, false, 0), b);
  }

  lemma ExposedLacks(cfg: Config)
    requires cfg.Valid() && Exposed(cfg)
    ensures !LeaderComplete(cfg)
  {
    var c, a, b, r := LogFlaw.Splits(cfg);
    var c' := LogFlaw.LeadsAgain(cfg, c, a, b, r);
    var run, k := LastOf(cfg, c');
    assert c'.nodes[a].log[1] != c'.nodes[b].log[1];
    assert !HasCommitted(cfg, [], run, k, k, b, a, 3);
  }

  /** Log matching holds in every run if and only if the configuration is not exposed. */
  lemma LogMatchingCondition(cfg: Config)
    requires cfg.Valid()
    ensures LogMatchingSafe(cfg) <==> !Exposed(cfg)
  {
    if Exposed(cfg) {
      ExposedTears(cfg);
    } else {
      forall boot, run, k: nat, l: nat, i, j, index: nat ensures Matches(cfg, boot, run, k, l, i, j, index) {
        if !Matches(cfg, boot, run, k, l, i, j, index) {
          if k <= l {
            Theorems.LogMatchingHolds(cfg, boot, run, k, l, i, j, index);
          } else {
            Theorems.LogMatchingHolds(cfg, boot, run, l, k, j, i, index);
          }
        }
      }
    }
  }

  /** No two nodes ever commit different entries at one index, if and only if the configuration is not exposed. */
  lemma StateMachineCondition(cfg: Config)
    requires cfg.Valid()
    ensures StateMachineSafe(cfg) <==> !Exposed(cfg)
  {
    if Exposed(cfg) {
      ExposedSplits(cfg);
    } else {
      forall boot, run, k: nat, l: nat, i, j ensures SameCommits(cfg, boot, run, k, l, i, j) {
        if !SameCommits(cfg, boot, run, k, l, i, j) {
          Theorems.StateMachineSafety(cfg, boot, run, k, l, i, j);
        }
      }
    }
  }

  /** Every later leader holds what was committed, if and only if the configuration is not exposed. */
  lemma CompletenessCondition(cfg: Config)
    requires cfg.Valid()
    ensures LeaderComplete(cfg) <==> !Exposed(cfg)
  {
    if Exposed(cfg) {
      ExposedLacks(cfg);
    } else {
      forall boot, run, k: nat, l: nat, i, j, u ensures HasCommitted(cfg, boot, run, k, l, i, j, u) {
        if !HasCommitted(cfg, boot, run, k, l, i, j, u) {
          Theorems.LeaderCompleteness(cfg, boot, run, k, l, i, j, u);
        }
      }
    }
  }

  /** Acknowledgements mean what they say, if and only if the configuration is not exposed. */
  lemma AckCondition(cfg: Config)
    requires cfg.Valid()
    ensures AckSound(cfg) <==> !Exposed(cfg)
  {
    if Exposed(cfg) {
      ExposedSplits(cfg);
    } else {
      forall boot, run, k: nat, l: nat, m, i ensures AckHolds(cfg, boot, run, k, l, m, i) {
        if !AckHolds(cfg, boot, run, k, l, m, i) {
          Theorems.AckSoundness(cfg, boot, run, k, l, m, i);
        }
      }
    }
  }

  // ---------------------------------------------------------------- throwing

  /** The statement of Theorems.NoFatal, of runs in which leaders keep to their send windows. */
  ghost predicate NotThrown(cfg: Config, boot: seq<Entry>, run: seq<State>, k: nat, i: Id, m: Message) {
    IsRun(cfg, boot, run) && Disciplined(cfg, run) && k < |run| ==> !FatalFlaw.CanThrow(cfg, run[k], i, m)
  }

  ghost predicate NeverThrows(cfg: Config) {
    forall boot, run, k: nat, i, m :: NotThrown(cfg, boot, run, k, i, m)
  }

  lemma ExposedThrows(cfg: Config)
    requires cfg.Valid() && Exposed(cfg) && |cfg.voters| >= 3
    ensures !NeverThrows(cfg)
  {
    hide FatalFlaw.Unequal, FatalFlaw.CanThrow, Disciplined;
    var c, a, b := FatalFlaw.UnequalArise(cfg);
    var c', x := FatalFlaw.ThrowsAmongMany(cfg, c, a, b);
    var run, k := LastOf(cfg, c');
    assert !NotThrown(cfg, [], run, k, x, Heartbeat(a, x, 3, 3));
  }

  /**
   * No message makes a node throw out of its log, if and only if the configuration is not exposed or
   * has two voters.
   */
  lemma FatalCondition(cfg: Config)
    requires cfg.Valid()
    ensures NeverThrows(cfg) <==> !Exposed(cfg) || |cfg.voters| == 2
  {
    hide Disciplined;
    if Exposed(cfg) && |cfg.voters| != 2 {
      ExposedThrows(cfg);
    } else {
      forall boot, run, k: nat, i, m ensures NotThrown(cfg, boot, run, k, i, m) {
        if !NotThrown(cfg, boot, run, k, i, m) {
          if Exposed(cfg) {
            TwoVoters.TwoThrowNot(cfg, boot, run, k, i, m);
          } else {
            Theorems.NoFatal(cfg, boot, run, k, i, m);
          }
        }
      }
    }
  }

  /** The server's own settings, pre-vote everywhere and no guard, for two nodes or more. */
  lemma ServerConfigurationDiverges(voters: set<Id>)
    requires NONE !in voters && |voters| >= 2
    ensures var cfg := Config(voters, true, voters, false);
      && !LogMatchingSafe(cfg) && !StateMachineSafe(cfg) && !LeaderComplete(cfg) && !AckSound(cfg)
      && (NeverThrows(cfg) <==> |voters| == 2)
  {
    var cfg := Config(voters, true, voters, false);
    LogMatchingCondition(cfg);
    StateMachineCondition(cfg);
    CompletenessCondition(cfg);
    AckCondition(cfg);
    FatalCondition(cfg);
  }
}
