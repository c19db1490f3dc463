/** The invariants hold in every state of every run, and the record of the past only grows. */
module Runs {
  import opened Proto
  import opened NodeSpec
  import opened Cluster
  import opened Actions
  import opened Election
  import opened History
  import opened Completeness
  import opened Safety
  import Refinement

  lemma PathMoves(cfg: Config, c: State, i: Id, p: Path, c': State, k: nat)
    requires Leads(cfg, c, i, p, c') && k < |p.acts|
    ensures Moves(cfg, p.states[k], p.acts[k], p.states[k + 1]) && Own(c, i, p.acts[k])
  {
  }

  // ---------------------------------------------------------------- votes, in every configuration

  lemma ExtendsTransitive(a: Ballots, b: Ballots, c: Ballots)
    requires Extends(a, b) && Extends(b, c)
    ensures Extends(a, c)
  {
  }

  lemma {:induction false} PathKeepsVotes(cfg: Config, c: State, i: Id, p: Path, c': State, k: nat, b: Ballots)
    returns (b': Ballots)
    requires Leads(cfg, c, i, p, c') && k <= |p.acts| && Election.Inv(cfg, p.states[k], b)
    ensures Election.Inv(cfg, c', b') && Extends(b, b')
    decreases |p.acts| - k
  {
    if k == |p.acts| {
      b' := b;
    } else {
      PathMoves(cfg, c, i, p, c', k);
      Election.ActionKeepsInv(cfg, p.states[k], b, p.acts[k]);
      var b1 := Cast(p.states[k].nodes[p.acts[k].i], p.acts[k], b);
      b' := PathKeepsVotes(cfg, c, i, p, c', k + 1, b1);
      ExtendsTransitive(b, b1, b');
    }
  }

  lemma EventKeepsVotes(cfg: Config, c: State, b: Ballots, c': State) returns (b': Ballots)
    requires Election.Inv(cfg, c, b) && Next(cfg, c, c')
    ensures Election.Inv(cfg, c', b') && Extends(b, b')
  {
    var e :| Happens(cfg, c, e, c');
    if e.Deliver? {
      var p := Refinement.DeliverRefines(cfg, c, b, e, c');
      b' := PathKeepsVotes(cfg, c, e.i, p, c', 0, b);
    } else {
      Refinement.RestartRefines(cfg, c, e, c');
      Election.ActionKeepsInv(cfg, c, b, Recover(e.i, e.commit));
      b' := b;
    }
  }

  lemma InitVotes(cfg: Config, boot: seq<Entry>, run: seq<State>)
    requires IsRun(cfg, boot, run)
    ensures Election.Inv(cfg, run[0], map[])
  {
  }

  lemma {:induction false} VotesOnwards(cfg: Config, boot: seq<Entry>, run: seq<State>, k: nat, l: nat, b: Ballots)
    returns (b': Ballots)
    requires IsRun(cfg, boot, run) && k <= l < |run| && Election.Inv(cfg, run[k], b)
    ensures Election.Inv(cfg, run[l], b') && Extends(b, b')
    decreases l - k
  {
    if k == l {
      b' := b;
    } else {
      var b1 := EventKeepsVotes(cfg, run[k], b, run[k + 1]);
      b' := VotesOnwards(cfg, boot, run, k + 1, l, b1);
      ExtendsTransitive(b, b1, b');
    }
  }

  /** The votes cast by two moments of a run. */
  lemma VotesAt(cfg: Config, boot: seq<Entry>, run: seq<State>, k: nat, l: nat) returns (b: Ballots, b': Ballots)
    requires IsRun(cfg, boot, run) && k <= l < |run|
    ensures Election.Inv(cfg, run[k], b) && Election.Inv(cfg, run[l], b') && Extends(b, b')
  {
    InitVotes(cfg, boot, run);
    b := VotesOnwards(cfg, boot, run, 0, k, map[]);
    b' := VotesOnwards(cfg, boot, run, k, l, b);
  }

  // ---------------------------------------------------------------- logs, in configurations that are not exposed

  lemma GrowsTransitive(a: Past, b: Past, c: Past)
    requires Grows(a, b) && Grows(b, c)
    ensures Grows(a, c)
  {
    ExtendsTransitive(a.ballots, b.ballots, c.ballots);
    forall t | t in a.reigns ensures Agree(a.reigns[t].log, c.reigns[t].log, |a.reigns[t].log|) {
      assert Agree(b.reigns[t].log, c.reigns[t].log, |b.reigns[t].log|);
    }
  }

  lemma GrowsReflexive(a: Past)
    ensures Grows(a, a)
  {
  }

  lemma StepAlong(cfg: Config, c: State, i: Id, p: Path, c': State, k: nat, h: Past) returns (h': Past)
    requires Leads(cfg, c, i, p, c') && k < |p.acts| && History.Inv(cfg, p.states[k], h)
    ensures History.Inv(cfg, p.states[k + 1], h') && Grows(h, h')
  {
    PathMoves(cfg, c, i, p, c', k);
    h' := ActionKeepsHistory(cfg, p.states[k], h, p.acts[k], p.states[k + 1]);
  }

  lemma {:induction false} PathKeepsHistory(cfg: Config, c: State, i: Id, p: Path, c': State, k: nat, h: Past)
    returns (h': Past)
    requires Leads(cfg, c, i, p, c') && k <= |p.acts| && History.Inv(cfg, p.states[k], h)
    ensures History.Inv(cfg, c', h') && Grows(h, h')
    decreases |p.acts| - k
  {
    if k == |p.acts| {
      h' := h;
      GrowsReflexive(h);
    } else {
      var h1 := StepAlong(cfg, c, i, p, c', k, h);
      h' := PathKeepsHistory(cfg, c, i, p, c', k + 1, h1);
      GrowsTransitive(h, h1, h');
    }
  }

  lemma EventKeepsHistory(cfg: Config, c: State, h: Past, c': State) returns (h': Past)
    requires History.Inv(cfg, c, h) && Next(cfg, c, c')
    ensures History.Inv(cfg, c', h') && Grows(h, h')
  {
    var e :| Happens(cfg, c, e, c');
    if e.Deliver? {
      var p := Refinement.DeliverRefines(cfg, c, h.ballots, e, c');
      h' := PathKeepsHistory(cfg, c, e.i, p, c', 0, h);
    } else {
      Refinement.RestartRefines(cfg, c, e, c');
      h' := ActionKeepsHistory(cfg, c, h, Recover(e.i, e.commit), c');
    }
  }

  function FirstPast(cfg: Config, boot: seq<Entry>): Past {
    Past(map[], map[], map[BOOT_TERM := Reign(NONE, boot)],
         map j | j in cfg.voters :: Slot(j, BOOT_TERM) := |boot|)
  }

  lemma FirstCommit(cfg: Config, boot: seq<Entry>)
    requires cfg.Valid() && BootLog(boot)
    ensures CommitOk(cfg.voters, FirstPast(cfg, boot), BOOT_TERM, boot, |boot|)
    ensures Rooted(FirstPast(cfg, boot).reigns, boot, BOOT_TERM)
  {
    var h := FirstPast(cfg, boot);
    forall j | j in cfg.voters ensures Acked(h, j, BOOT_TERM) == |boot| {
      assert Slot(j, BOOT_TERM) in h.acked;
    }
    assert Ackers(cfg.voters, h, BOOT_TERM, |boot|) == cfg.voters;
    assert Committed(cfg.voters, h, BOOT_TERM, |boot|);
    assert Agree(boot, h.reigns[BOOT_TERM].log, |boot|);
  }

  lemma InitPast(cfg: Config, boot: seq<Entry>, c: State)
    requires Init(cfg, boot, c) && !Exposed(cfg)
    ensures PastOk(cfg, c, FirstPast(cfg, boot))
    ensures forall i | i in cfg.voters :: NodeLogOk(cfg, FirstPast(cfg, boot), c.nodes[i])
  {
    FirstCommit(cfg, boot);
    forall i | i in cfg.voters ensures NodeLogOk(cfg, FirstPast(cfg, boot), c.nodes[i]) {
      assert c.nodes[i] == FirstNode(i, boot);
    }
  }

  lemma InitSurvival(cfg: Config, boot: seq<Entry>, c: State)
    requires Init(cfg, boot, c)
    ensures var h := FirstPast(cfg, boot); Complete(cfg, c, h) && AcksKept(cfg, c, h) && VotesKept(cfg, c, h)
  {
    var h := FirstPast(cfg, boot);
    forall j, t, k: nat |
      j in cfg.voters && j in c.nodes && t in h.reigns && Pivot(h.reigns[t].log, t, k) && k <= Acked(h, j, t)
      ensures Survives(cfg.voters, c, h, t, k, c.nodes[j].log)
    {
      assert c.nodes[j] == FirstNode(j, boot);
    }
  }

  lemma InitHistory(cfg: Config, boot: seq<Entry>, run: seq<State>)
    requires IsRun(cfg, boot, run) && !Exposed(cfg)
    ensures History.Inv(cfg, run[0], FirstPast(cfg, boot))
  {
    InitVotes(cfg, boot, run);
    InitPast(cfg, boot, run[0]);
    InitSurvival(cfg, boot, run[0]);
  }

  lemma {:induction false} HistoryOnwards(cfg: Config, boot: seq<Entry>, run: seq<State>, k: nat, l: nat, h: Past)
    returns (h': Past)
    requires IsRun(cfg, boot, run) && k <= l < |run| && History.Inv(cfg, run[k], h)
    ensures History.Inv(cfg, run[l], h') && Grows(h, h')
    decreases l - k
  {
    if k == l {
      h' := h;
      GrowsReflexive(h);
    } else {
      var h1 := EventKeepsHistory(cfg, run[k], h, run[k + 1]);
      h' := HistoryOnwards(cfg, boot, run, k + 1, l, h1);
      GrowsTransitive(h, h1, h');
    }
  }

  /** The record of the past at two moments of a run. */
  lemma HistoryAt(cfg: Config, boot: seq<Entry>, run: seq<State>, k: nat, l: nat) returns (h: Past, h': Past)
    requires IsRun(cfg, boot, run) && !Exposed(cfg) && k <= l < |run|
    ensures History.Inv(cfg, run[k], h) && History.Inv(cfg, run[l], h') && Grows(h, h')
  {
    InitHistory(cfg, boot, run);
    h := HistoryOnwards(cfg, boot, run, 0, k, FirstPast(cfg, boot));
    h' := HistoryOnwards(cfg, boot, run, k, l, h);
  }
}
