/**
 * A cluster of nodes with a fixed voter set over a network that may lose, duplicate, delay and
 * reorder messages: net holds every message ever sent and any of them may be delivered any number
 * of times, or never. One event is a whole server action, a step followed by draining Ready, so
 * term, vote and log are on disk before the messages leave (raft-kv/server/raft_node.cpp:96-133).
 */
module Cluster {
  import opened Proto
  import opened NodeSpec

  datatype State = State(nodes: map<Id, Node>, net: set<Message>)

  datatype Event =
    | Deliver(i: Id, m: Message, out: set<Message>)
    | Restart(i: Id, commit: nat)

  ghost predicate WellFormed(cfg: Config, c: State) {
    && cfg.Valid()
    && forall i | i in cfg.voters :: i in c.nodes && c.nodes[i].id == i
  }

  const BOOT_TERM: Term := 1

  ghost predicate BootLog(boot: seq<Entry>) {
    forall i | 0 <= i < |boot| :: boot[i].term == BOOT_TERM && boot[i].index == i + 1
  }

  /** RawNode's constructor: every node starts at term 1 from the same committed entries (node.cpp:14-64). */
  function FirstNode(i: Id, boot: seq<Entry>): Node {
    Node(i, BOOT_TERM, NONE, Follower, NONE, {}, {}, boot, |boot|, map[i := |boot|])
  }

  ghost predicate Init(cfg: Config, boot: seq<Entry>, c: State) {
    && cfg.Valid() && BootLog(boot)
    && c.nodes == (map i | i in cfg.voters :: FirstNode(i, boot))
    && c.net == {}
  }

  /** A crash keeps term, vote and log; a commit index written but not yet synced may be lost. */
  function Restarted(n: Node, commit: nat): Node {
    BecomeFollower(n, n.term, NONE).(commit := commit)
  }

  ghost predicate Happens(cfg: Config, c: State, e: Event, c': State)
    requires WellFormed(cfg, c)
  {
    && e.i in cfg.voters && e.i in c'.nodes
    && match e
       case Deliver(i, m, out) =>
         && (m.Local() || m.Prop? || (m in c.net && m.to == i))
         && !Fatal(cfg, c.nodes[i], m)
         && Step(cfg, c.nodes[i], m, c'.nodes[i], out)
         && c' == State(c.nodes[i := c'.nodes[i]], c.net + out)
       case Restart(i, commit) =>
         && commit <= c.nodes[i].commit
         && c' == State(c.nodes[i := Restarted(c.nodes[i], commit)], c.net)
  }

  ghost predicate Next(cfg: Config, c: State, c': State)
    requires WellFormed(cfg, c)
  {
    exists e :: Happens(cfg, c, e, c')
  }

  /** The states of one execution, in order. */
  ghost predicate IsRun(cfg: Config, boot: seq<Entry>, run: seq<State>) {
    && |run| > 0
    && Init(cfg, boot, run[0])
    && (forall k | 0 <= k < |run| :: WellFormed(cfg, run[k]))
    && (forall k | 0 <= k < |run| - 1 :: Next(cfg, run[k], run[k + 1]))
  }
}
