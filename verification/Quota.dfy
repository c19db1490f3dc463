/**
 * A leader's books: the size of its uncommitted tail, and the one configuration change it lets
 * be pending (raft-kv/raft/raft.cpp:182-201, 539-556, 1515-1549).
 */
module Quota {
  import opened Proto
  import NodeSpec

  function Payload(ents: seq<Entry>): nat {
    if ents == [] then 0 else Payload(ents[..|ents| - 1]) + |ents[|ents| - 1].data|
  }

  lemma {:induction false} PayloadConcat(a: seq<Entry>, b: seq<Entry>)
    ensures Payload(a + b) == Payload(a) + Payload(b)
    decreases |b|
  {
    if b == [] {
      assert a + b == a;
    } else {
      var b' := b[..|b| - 1];
      PayloadConcat(a, b');
      assert (a + b)[..|a + b| - 1] == a + b';
    }
  }

  /** The payload of a batch is what its entries carry. */
  lemma PayloadOfOne(e: Entry)
    ensures Payload([e]) == |e.data|
  {
    assert [e][..0] == [];
  }

  /** increase_uncommitted_size: an empty tail takes a proposal of any size. */
  predicate Admits(uncommitted: nat, max: nat, ents: seq<Entry>) {
    uncommitted == 0 || uncommitted + Payload(ents) <= max
  }

  /** reduce_uncommitted_size saturates at 0. */
  function Reduced(uncommitted: nat, ents: seq<Entry>): nat {
    if Payload(ents) > uncommitted then 0 else uncommitted - Payload(ents)
  }

  /** Anything goes onto an empty tail; onto any other, what does not take it beyond the limit. */
  lemma AdmitsMeans(uncommitted: nat, max: nat, ents: seq<Entry>)
    ensures uncommitted == 0 ==> Admits(uncommitted, max, ents)
    ensures uncommitted > 0 ==> (Admits(uncommitted, max, ents) <==> uncommitted + Payload(ents) <= max)
  {
  }

  /** What is handed out comes off the count, as far as it was counted. */
  lemma ReducedMeans(uncommitted: nat, ents: seq<Entry>)
    ensures Reduced(uncommitted, ents) + Payload(ents) == Max(uncommitted, Payload(ents))
  {
  }

  /** The proposal loop of step_leader: what is appended, and the new pending_conf_index_. */
  function Screen(entries: seq<Entry>, last: nat, applied: nat, pending: nat): (r: (seq<Entry>, nat))
    ensures |r.0| == |entries|
  {
    if entries == [] then ([], pending)
    else
      var n := |entries| - 1;
      var (ents, p) := Screen(entries[..n], last, applied, pending);
      if !entries[n].kind.ConfChange? then (ents + [entries[n]], p)
      else if p > applied then (ents + [NodeSpec.NOOP], p)
      else (ents + [entries[n]], last + n + 1)
  }

  /** At most one change gets through, none while one may be pending, and the rest become empty entries. */
  lemma {:induction false} ScreenAllowsOne(entries: seq<Entry>, last: nat, applied: nat, pending: nat)
    requires applied <= last
    ensures var (ents, p) := Screen(entries, last, applied, pending);
      && NodeSpec.Screened(entries, ents)
      && p >= pending
    ensures var (ents, p) := Screen(entries, last, applied, pending);
      && (pending > applied ==> p == pending && forall i | 0 <= i < |ents| :: !ents[i].kind.ConfChange?)
      && (forall i | 0 <= i < |ents| && ents[i].kind.ConfChange? :: p == last + i + 1)
      && (p == pending || last < p <= last + |entries|)
  {
    if entries != [] {
      var n := |entries| - 1;
      ScreenAllowsOne(entries[..n], last, applied, pending);
      var (ents, p) := Screen(entries[..n], last, applied, pending);
      var (ents', p') := Screen(entries, last, applied, pending);
      assert forall i | 0 <= i < n :: ents'[i] == ents[i] && entries[i] == entries[..n][i];
    }
  }

  /** entries[k] is the first configuration change. */
  predicate FirstChange(entries: seq<Entry>, k: nat) {
    k < |entries| && entries[k].kind.ConfChange? && forall i | 0 <= i < k :: !entries[i].kind.ConfChange?
  }

  /** One entry more. */
  lemma ScreenStep(entries: seq<Entry>, last: nat, applied: nat, pending: nat)
    requires entries != []
    ensures var n := |entries| - 1;
      var (ents, p) := Screen(entries[..n], last, applied, pending);
      var (ents', p') := Screen(entries, last, applied, pending);
      && |ents| == n && ents' == ents + [ents'[n]]
      && (!entries[n].kind.ConfChange? ==> ents'[n] == entries[n] && p' == p)
      && (entries[n].kind.ConfChange? && p > applied ==> ents'[n] == NodeSpec.NOOP && p' == p)
      && (entries[n].kind.ConfChange? && p <= applied ==> ents'[n] == entries[n] && p' == last + n + 1)
  {
  }

  /** No ordinary entry is touched; without a change, or while one may be pending, nothing else happens but that changes are emptied. */
  lemma {:induction false} ScreenKeeps(entries: seq<Entry>, last: nat, applied: nat, pending: nat)
    ensures var (ents, p) := Screen(entries, last, applied, pending);
      && (forall i | 0 <= i < |entries| && !entries[i].kind.ConfChange? :: ents[i] == entries[i])
      && ((forall i | 0 <= i < |entries| :: !entries[i].kind.ConfChange?) ==> p == pending)
      && (pending > applied ==>
            p == pending && forall i | 0 <= i < |entries| && entries[i].kind.ConfChange? :: ents[i] == NodeSpec.NOOP)
  {
    if entries != [] {
      ScreenStep(entries, last, applied, pending);
      ScreenKeeps(entries[..|entries| - 1], last, applied, pending);
      hide Screen;
      assert forall i | 0 <= i < |entries| - 1 :: entries[..|entries| - 1][i] == entries[i];
    }
  }

  /**
   * And if none may be pending the first change does get through, unchanged and at its place, where pending
   * then points; all others become empty entries.
   */
  lemma {:induction false} ScreenLetsFirstThrough(entries: seq<Entry>, last: nat, applied: nat, pending: nat, k: nat)
    requires pending <= applied <= last && FirstChange(entries, k)
    ensures var (ents, p) := Screen(entries, last, applied, pending);
      && ents[k] == entries[k] && p == last + k + 1
      && forall i | 0 <= i < |entries| && i != k && entries[i].kind.ConfChange? :: ents[i] == NodeSpec.NOOP
  {
    var n := |entries| - 1;
    ScreenStep(entries, last, applied, pending);
    ScreenKeeps(entries[..n], last, applied, pending);
    hide Screen;
    assert forall i | 0 <= i < n :: entries[..n][i] == entries[i];
    if k < n {
      ScreenLetsFirstThrough(entries[..n], last, applied, pending, k);
    }
  }

  /**
   * The books of a leader whose own entries start after index from. Entries up to applied have
   * been handed out as committed.
   */
  datatype Books = Books(log: seq<Entry>, from: nat, applied: nat, uncommitted: nat, pending: nat) {
    /** An index this leader appended a configuration change at. */
    predicate OwnChange(i: nat) { from < i <= |log| && log[i - 1].kind.ConfChange? }

    /** The estimate never exceeds the real size of what is still to be handed out. */
    ghost predicate SizeOk() { applied <= |log| && uncommitted <= Payload(log[applied..]) }

    /** At most one own change is not yet applied, and none lies beyond pending. */
    ghost predicate ChangesOk() {
      && (forall i: nat :: OwnChange(i) ==> i <= pending)
      && (forall i: nat, j: nat :: i < j && OwnChange(i) && OwnChange(j) ==> i <= applied)
    }

    ghost predicate Ok() {
      from <= |log| && SizeOk() && ChangesOk()
    }
  }

  datatype Event =
    | Propose(entries: seq<Entry>, term: Term, max: nat)
    | HandOut(till: nat)

  ghost predicate Enabled(b: Books, e: Event) { e.HandOut? ==> b.applied <= e.till <= |b.log| }

  function After(b: Books, e: Event): Books
    requires e.HandOut? ==> b.applied <= e.till <= |b.log|
  {
    match e
    case Propose(entries, term, max) =>
      var (ents, p) := Screen(entries, |b.log|, b.applied, b.pending);
      var own := NodeSpec.Stamp(term, |b.log|, ents);
      if Admits(b.uncommitted, max, own)
      then b.(log := b.log + own, uncommitted := b.uncommitted + Payload(own), pending := p)
      else b.(pending := p)
    case HandOut(till) =>
      b.(applied := till, uncommitted := Reduced(b.uncommitted, b.log[b.applied..till]))
  }

  /** A new leader: nothing of its own but the empty entry, which is not counted. */
  function Elected(log: seq<Entry>, applied: nat, term: Term): Books {
    Books(log + NodeSpec.Stamp(term, |log|, [NodeSpec.NOOP]), |log|, applied, 0, |log|)
  }

  lemma TailPayload(log: seq<Entry>, own: seq<Entry>, k: nat)
    requires k <= |log|
    ensures Payload((log + own)[k..]) == Payload(log[k..]) + Payload(own)
  {
    PayloadConcat(log[k..], own);
    assert (log + own)[k..] == log[k..] + own;
  }

  /** Where an own change is after a batch has been appended. */
  lemma OwnAfterAppend(b: Books, b': Books, own: seq<Entry>, i: nat)
    requires b'.log == b.log + own && b'.from == b.from <= |b.log| && b'.OwnChange(i)
    ensures i <= |b.log| + |own|
    ensures if i <= |b.log| then b.OwnChange(i) else own[i - 1 - |b.log|].kind.ConfChange?
  {
  }

  /** Appending a batch with at most one change, none of them while an own change is pending. */
  lemma AppendKeepsChanges(b: Books, b': Books, own: seq<Entry>)
    requires b.from <= |b.log| && b.applied <= |b.log| && b.ChangesOk()
    requires b'.log == b.log + own && b'.from == b.from && b'.applied == b.applied && b'.pending >= b.pending
    requires b.pending > b.applied ==> forall i | 0 <= i < |own| :: !own[i].kind.ConfChange?
    requires forall i | 0 <= i < |own| && own[i].kind.ConfChange? :: b'.pending == |b.log| + i + 1
    ensures b'.ChangesOk()
  {
    hide Books.OwnChange;
    forall i: nat | b'.OwnChange(i)
      ensures i <= b'.pending
      ensures if i <= |b.log| then b.OwnChange(i) else i == b'.pending && b.pending <= b.applied
    {
      OwnAfterAppend(b, b', own, i);
    }
  }

  lemma ProposeKeeps(b: Books, entries: seq<Entry>, term: Term, max: nat)
    requires b.Ok()
    ensures After(b, Propose(entries, term, max)).Ok()
  {
    hide Screen, Payload, Books.OwnChange;
    var (ents, p) := Screen(entries, |b.log|, b.applied, b.pending);
    ScreenAllowsOne(entries, |b.log|, b.applied, b.pending);
    var own := NodeSpec.Stamp(term, |b.log|, ents);
    var b' := After(b, Propose(entries, term, max));
    if Admits(b.uncommitted, max, own) {
      assert forall i | 0 <= i < |own| :: own[i].kind == ents[i].kind;
      AppendKeepsChanges(b, b', own);
      TailPayload(b.log, own, b.applied);
    } else {
      SameChanges(b, b');
    }
  }

  lemma SameChanges(b: Books, b': Books)
    requires b.ChangesOk() && b'.log == b.log && b'.from == b.from
    requires b'.pending >= b.pending && b'.applied >= b.applied
    ensures b'.ChangesOk()
  {
    assert forall i: nat :: b'.OwnChange(i) <==> b.OwnChange(i);
  }

  lemma HandOutKeeps(b: Books, till: nat)
    requires b.Ok() && b.applied <= till <= |b.log|
    ensures After(b, HandOut(till)).Ok()
  {
    var b' := After(b, HandOut(till));
    assert b.log[b.applied..] == b.log[b.applied..till] + b.log[till..];
    PayloadConcat(b.log[b.applied..till], b.log[till..]);
    SameChanges(b, b');
  }

  lemma ElectedOk(log: seq<Entry>, applied: nat, term: Term)
    requires applied <= |log|
    ensures Elected(log, applied, term).Ok()
  {
  }

  ghost predicate Follows(b: Books, e: Event, b': Books) { Enabled(b, e) && b' == After(b, e) }

  ghost predicate IsRun(states: seq<Books>, events: seq<Event>) {
    && |states| == |events| + 1
    && (exists log: seq<Entry>, applied: nat, term: Term :: applied <= |log| && states[0] == Elected(log, applied, term))
    && forall i {:trigger events[i]} | 0 <= i < |events| :: Follows(states[i], events[i], states[i + 1])
  }

  /** Through a whole reign the books stay in order. */
  lemma {:induction false} BooksStayOk(states: seq<Books>, events: seq<Event>, k: nat)
    requires IsRun(states, events) && k < |states|
    ensures states[k].Ok()
  {
    if k == 0 {
      var log: seq<Entry>, applied: nat, term: Term :| applied <= |log| && states[0] == Elected(log, applied, term);
      ElectedOk(log, applied, term);
    } else {
      BooksStayOk(states, events, k - 1);
      match events[k - 1]
      case Propose(entries, term, max) => ProposeKeeps(states[k - 1], entries, term, max);
      case HandOut(till) => HandOutKeeps(states[k - 1], till);
    }
  }
}
