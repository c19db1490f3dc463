/** Wire and log entities (raft-kv/raft/proto.h). */
module Proto {

  /** Node identifiers; 0 stands for "no node", as in vote_ and lead_. */
  type Id = nat

  const NONE: Id := 0

  type Term = nat

  type Byte = b: nat | b < 256

  datatype EntryKind = Normal | ConfChange

  datatype Entry = Entry(kind: EntryKind, term: Term, index: nat, data: seq<Byte>)

  /**
   * The messages that Raft::step accepts. Constructors without a term are the local ones, which
   * the source sends with term 0 and so exempts from the term comparison.
   * A snapshot message carries the log prefix its data stands for: installing it has the effect
   * of having applied exactly those entries.
   */
  datatype Message =
    | Hup
    | Beat
    | CheckQuorum
    | Unreachable(from: Id)
    | SnapStatus(from: Id, reject: bool)
    | TransferLeader(from: Id)
    | Prop(from: Id, to: Id, entries: seq<Entry>)
    | App(from: Id, to: Id, term: Term, index: nat, logTerm: Term, entries: seq<Entry>, commit: nat)
    | AppResp(from: Id, to: Id, term: Term, index: nat, reject: bool, hint: nat)
    | Vote(from: Id, to: Id, term: Term, index: nat, logTerm: Term, force: bool)
    | VoteResp(from: Id, to: Id, term: Term, reject: bool)
    | PreVote(from: Id, to: Id, term: Term, index: nat, logTerm: Term)
    | PreVoteResp(from: Id, to: Id, term: Term, reject: bool)
    | Heartbeat(from: Id, to: Id, term: Term, commit: nat)
    | HeartbeatResp(from: Id, to: Id, term: Term)
    | Snap(from: Id, to: Id, term: Term, index: nat, logTerm: Term, prefix: seq<Entry>)
    | TimeoutNow(from: Id, to: Id, term: Term)
  {
    /** Messages the node gives itself: they never travel and carry no term. */
    predicate Local() {
      Hup? || Beat? || CheckQuorum? || Unreachable? || SnapStatus? || TransferLeader?
    }

    /** The term field; 0 for local messages and for proposals. */
    function TermField(): Term {
      if Local() || Prop? then 0 else term
    }
  }

  function Min(a: nat, b: nat): nat { if a < b then a else b }

  function Max(a: nat, b: nat): nat { if a < b then b else a }
}
