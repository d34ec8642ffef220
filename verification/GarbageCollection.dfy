/** Forgetting old trade offers: which entries of a bot's poll data a full poll removes. */
module GarbageCollection {
  import opened Wrappers

  datatype Id = Id(number: int)

  datatype OfferState = Active | CreatedNeedsConfirmation | InEscrow | Other(code: int)

  datatype OfferData = OfferData(published: Option<OfferState>, missing: Option<int>)

  datatype PollData = PollData(sent: set<Id>, received: set<Id>, timestamps: set<Id>, offerData: map<Id, OfferData>)

  /** Nothing published counts as completed. */
  predicate IsCompleted(published: Option<OfferState>) {
    !(published == Some(Active) || published == Some(CreatedNeedsConfirmation) || published == Some(InEscrow))
  }

  // ----- one full poll

  /** Since when an absent offer is missing, once it is checked at `now`; 0 counts as unset. */
  function MissingSince(d: OfferData, now: int): int {
    if d.missing.Some? && d.missing.value != 0 then d.missing.value else now
  }

  predicate Expired(d: OfferData, now: int, rememberTime: int) {
    IsCompleted(d.published) && MissingSince(d, now) + rememberTime <= now
  }

  /** Offers that are listed are no longer missing. */
  function Reappeared(offerData: map<Id, OfferData>, listed: set<Id>): map<Id, OfferData> {
    map id | id in offerData :: if id in listed then offerData[id].(missing := None) else offerData[id]
  }

  function Removed(offerData: map<Id, OfferData>, ids: set<Id>, now: int, rememberTime: int): set<Id> {
    set id | id in ids && id in offerData && Expired(offerData[id], now, rememberTime)
  }

  /** The offers `ids` are checked. */
  function Checked(s: PollData, ids: set<Id>, now: int, rememberTime: int): PollData {
    var removed := Removed(s.offerData, ids, now, rememberTime);
    PollData(
      s.sent - removed, s.received - removed, s.timestamps - removed,
      map id | id in s.offerData && id !in removed ::
        if id in ids && IsCompleted(s.offerData[id].published)
        then s.offerData[id].(missing := Some(MissingSince(s.offerData[id], now))) else s.offerData[id])
  }

  function Absent(s: PollData, sent: set<Id>, received: set<Id>): set<Id> {
    (s.sent - sent) + (s.received - received)
  }

  function CleanedUp(s: PollData, sent: set<Id>, received: set<Id>, now: int, rememberTime: int): PollData {
    Checked(s.(offerData := Reappeared(s.offerData, sent + received)), Absent(s, sent, received), now, rememberTime)
  }

  /** Checking one offer more, or one again. */
  lemma CheckedOneMore(s: PollData, ids: set<Id>, id: Id, now: int, rememberTime: int)
    ensures Checked(Checked(s, ids, now, rememberTime), {id}, now, rememberTime)
         == Checked(s, ids + {id}, now, rememberTime)
  {
    var t, u := Checked(s, ids, now, rememberTime), Checked(s, ids + {id}, now, rememberTime);
    var once := Removed(s.offerData, ids, now, rememberTime);
    var again := Removed(t.offerData, {id}, now, rememberTime);
    forall i ensures i in once + again <==> i in Removed(s.offerData, ids + {id}, now, rememberTime) {
      if i in t.offerData { assert t.offerData[i].published == s.offerData[i].published; }
    }
    assert once + again == Removed(s.offerData, ids + {id}, now, rememberTime);
    assert Checked(t, {id}, now, rememberTime).offerData == u.offerData;
  }

  /** What changed stays changed as more offers are checked. */
  lemma ChangeStays(s: PollData, ids: set<Id>, id: Id, now: int, rememberTime: int)
    ensures Checked(s, ids + {id}, now, rememberTime) == s ==> Checked(s, ids, now, rememberTime) == s
  {
    var more := Removed(s.offerData, ids + {id}, now, rememberTime);
    var u, t := Checked(s, ids + {id}, now, rememberTime), Checked(s, ids, now, rememberTime);
    if u == s {
      assert forall i :: i in more ==> i in s.offerData && i !in u.offerData;
      assert more == {} && Removed(s.offerData, ids, now, rememberTime) == {};
      assert t.offerData.Keys == s.offerData.Keys;
      forall i | i in s.offerData ensures t.offerData[i] == s.offerData[i] {
        assert u.offerData[i] == s.offerData[i];
      }
      assert t.sent == s.sent && t.received == s.received && t.timestamps == s.timestamps && t.offerData == s.offerData;
    }
  }

  class GarbageCollector {
    var pollData: PollData
    var emitted: nat              // times the poll data was handed on to be saved
    const rememberTime: int

    constructor (pollData: PollData, rememberTime: int)
      ensures this.pollData == pollData && this.rememberTime == rememberTime && emitted == 0
    {
      this.pollData, this.rememberTime, emitted := pollData, rememberTime, 0;
    }

    method CheckOffer(id: Id, now: int) returns (changed: bool)
      modifies this`pollData
      ensures pollData == Checked(old(pollData), {id}, now, rememberTime)
      ensures now > 0 ==> (changed <==> pollData != old(pollData))
    {
      changed := false;
      if id !in pollData.offerData {
        // nothing is kept about it
        NothingChecked(pollData, id, now, rememberTime);
        return;
      }
      var offerData := pollData.offerData[id];
      if !IsCompleted(offerData.published) {
        NothingChecked(pollData, id, now, rememberTime);
        return;
      }
      if offerData.missing.None? || offerData.missing.value == 0 {
        offerData := offerData.(missing := Some(now));
        changed := true;
      }
      var kept := pollData.offerData[id := offerData];
      if offerData.missing.value + rememberTime > now {
        KeptChecked(pollData, id, now, rememberTime);
        pollData := pollData.(offerData := kept);
        return;
      }
      changed := true;
      RemovedChecked(pollData, id, now, rememberTime);
      pollData := PollData(pollData.sent - {id}, pollData.received - {id}, pollData.timestamps - {id}, kept - {id});
    }

    /** `cleanup`, with the absent offers in any order, one perhaps twice. */
    method Cleanup(sent: set<Id>, received: set<Id>, now: int)
      modifies this
      ensures pollData == CleanedUp(old(pollData), sent, received, now, rememberTime)
      ensures var unmarked := old(pollData).(offerData := Reappeared(old(pollData).offerData, sent + received));
        now > 0 ==> emitted == old(emitted) + if pollData == unmarked then 0 else 1
    {
      pollData := pollData.(offerData := Reappeared(pollData.offerData, sent + received));
      ghost var s := pollData;
      var missing := SeqOf(pollData.sent - sent);
      var more := SeqOf(pollData.received - received);
      missing := missing + more;
      assert forall id :: id in missing <==> id in s.sent - sent || id in s.received - received;
      var changed := false;
      assert Checked(s, {}, now, rememberTime) == s;
      hide Checked, Reappeared, IdsUpTo;
      NoIds(missing);
      for i := 0 to |missing|
        invariant pollData == Checked(s, IdsUpTo(missing, i), now, rememberTime)
        invariant now > 0 ==> (changed <==> pollData != s)
        invariant emitted == old(emitted)
      {
        CheckedOneMore(s, IdsUpTo(missing, i), missing[i], now, rememberTime);
        ChangeStays(s, IdsUpTo(missing, i), missing[i], now, rememberTime);
        IdsOneMore(missing, i);
        var c := CheckOffer(missing[i], now);
        changed := changed || c;
      }
      AllIds(missing);
      assert forall id :: id in missing <==> id in Absent(s, sent, received);
      assert IdsUpTo(missing, |missing|) == Absent(s, sent, received);
      if changed {
        emitted := emitted + 1;
      }
    }
  }

  lemma NothingChecked(s: PollData, id: Id, now: int, rememberTime: int)
    requires id in s.offerData ==> !IsCompleted(s.offerData[id].published)
    ensures Checked(s, {id}, now, rememberTime) == s
  {
  }

  lemma KeptChecked(s: PollData, id: Id, now: int, rememberTime: int)
    requires id in s.offerData && IsCompleted(s.offerData[id].published)
    requires MissingSince(s.offerData[id], now) + rememberTime > now
    ensures Checked(s, {id}, now, rememberTime) ==
      s.(offerData := s.offerData[id := s.offerData[id].(missing := Some(MissingSince(s.offerData[id], now)))])
  {
  }

  lemma RemovedChecked(s: PollData, id: Id, now: int, rememberTime: int)
    requires id in s.offerData && Expired(s.offerData[id], now, rememberTime)
    ensures Checked(s, {id}, now, rememberTime) ==
      PollData(s.sent - {id}, s.received - {id}, s.timestamps - {id}, s.offerData - {id})
  {
  }

  method SeqOf(ids: set<Id>) returns (r: seq<Id>)
    ensures forall id :: id in r <==> id in ids
  {
    r := [];
    var rest := ids;
    while rest != {}
      invariant rest <= ids
      invariant forall id :: id in r <==> id in ids - rest
    {
      var id :| id in rest;
      r := r + [id];
      rest := rest - {id};
    }
  }

  function IdsUpTo(ids: seq<Id>, n: nat): set<Id>
    requires n <= |ids|
  {
    set i | 0 <= i < n :: ids[i]
  }

  lemma IdsOneMore(ids: seq<Id>, n: nat)
    requires n < |ids|
    ensures IdsUpTo(ids, n + 1) == IdsUpTo(ids, n) + {ids[n]}
  {
  }

  lemma NoIds(ids: seq<Id>)
    ensures IdsUpTo(ids, 0) == {}
  {
  }

  lemma AllIds(ids: seq<Id>)
    ensures forall id :: id in IdsUpTo(ids, |ids|) <==> id in ids
  {
  }

  // ----- any number of polls

  /** A full poll: when, which offers it listed, which tracked ones were not in their list, and
      of these, which it left marked missing and which it removed. */
  datatype Poll = Poll(time: int, listed: set<Id>, absent: set<Id>, marked: set<Id>, removed: set<Id>)

  datatype State = State(data: PollData, polls: seq<Poll>)

  datatype Event =
    | Track(id: Id, ours: bool)
    | Publish(id: Id, state: OfferState)
    | FullPoll(sent: set<Id>, received: set<Id>, now: int)

  predicate Enabled(s: State, e: Event) {
    e.FullPoll? ==> e.now > 0 && forall k :: 0 <= k < |s.polls| ==> s.polls[k].time <= e.now
  }

  function Published(offerData: map<Id, OfferData>, id: Id, state: OfferState): map<Id, OfferData> {
    offerData[id := OfferData(Some(state), if id in offerData then offerData[id].missing else None)]
  }

  function PollOf(before: PollData, after: PollData, sent: set<Id>, received: set<Id>, now: int): Poll {
    var absent := Absent(before, sent, received);
    Poll(now, sent + received, absent,
         (set id | id in absent && id in after.offerData && IsCompleted(after.offerData[id].published)),
         before.offerData.Keys - after.offerData.Keys)
  }

  function Step(s: State, e: Event, rememberTime: int): State
    requires Enabled(s, e)
  {
    var d := s.data;
    match e
    case Track(id, ours) =>
      State(PollData(if ours then d.sent + {id} else d.sent, if ours then d.received else d.received + {id},
                     d.timestamps + {id}, d.offerData), s.polls)
    case Publish(id, state) => State(d.(offerData := Published(d.offerData, id, state)), s.polls)
    case FullPoll(sent, received, now) =>
      var after := CleanedUp(d, sent, received, now, rememberTime);
      State(after, s.polls + [PollOf(d, after, sent, received, now)])
  }

  /** The offer was absent from the `k`th poll, which marked it, and since then no poll listed
      or removed it. */
  predicate GoneSince(polls: seq<Poll>, id: Id, k: nat)
    requires k < |polls|
  {
    && id in polls[k].marked && id in polls[k].absent
    && forall l :: k < l < |polls| ==> id !in polls[l].listed && id !in polls[l].removed
  }

  /** A mark tells when the offer went missing. */
  predicate MarkTrue(polls: seq<Poll>, id: Id, d: OfferData) {
    d.missing.Some? ==> exists k: nat :: k < |polls| && polls[k].time == d.missing.value && GoneSince(polls, id, k)
  }

  /** And an offer that is gone is marked since then or before. */
  predicate MarkThere(polls: seq<Poll>, id: Id, d: OfferData) {
    forall k: nat :: k < |polls| && GoneSince(polls, id, k) ==> d.missing.Some? && d.missing.value <= polls[k].time
  }

  function DataOf(offerData: map<Id, OfferData>, id: Id): OfferData {
    if id in offerData then offerData[id] else OfferData(None, None)
  }

  ghost predicate Inv(s: State) {
    && (forall id :: MarkTrue(s.polls, id, DataOf(s.data.offerData, id)))
    && (forall id :: MarkThere(s.polls, id, DataOf(s.data.offerData, id)))
    && (forall k :: 0 <= k < |s.polls| ==> s.polls[k].time > 0)
  }

  lemma NotGoneLater(polls: seq<Poll>, poll: Poll, id: Id, k: nat)
    requires k < |polls|
    ensures GoneSince(polls + [poll], id, k) <==> GoneSince(polls, id, k) && id !in poll.listed && id !in poll.removed
  {
    var more := polls + [poll];
    assert more[k] == polls[k];
    if GoneSince(more, id, k) {
      assert forall l :: k < l < |polls| ==> more[l] == polls[l];
      assert more[|polls|] == poll;
    }
  }

  /** What one poll does to one offer it keeps. */
  lemma PollKeepsMark(s: State, e: Event, rememberTime: int, id: Id)
    requires Inv(s) && Enabled(s, e) && e.FullPoll?
    requires id in Step(s, e, rememberTime).data.offerData
    ensures var t := Step(s, e, rememberTime);
      MarkTrue(t.polls, id, t.data.offerData[id]) && MarkThere(t.polls, id, t.data.offerData[id])
  {
    var t := Step(s, e, rememberTime);
    var n := |s.polls|;
    var poll := t.polls[n];
    assert id in s.data.offerData && DataOf(s.data.offerData, id) == s.data.offerData[id];
    var was, before, after := s.data.offerData[id], Reappeared(s.data.offerData, poll.listed)[id], t.data.offerData[id];
    assert id !in poll.removed && (id in poll.marked <==> id in poll.absent && IsCompleted(after.published));
    assert GoneSince(t.polls, id, n) <==> id in poll.marked;
    assert after == if id in poll.marked then before.(missing := Some(MissingSince(before, e.now))) else before;
    forall k: nat | k < n ensures GoneSince(t.polls, id, k) <==> GoneSince(s.polls, id, k) && id !in poll.listed {
      NotGoneLater(s.polls, poll, id, k);
    }
    if was.missing.Some? {
      var k: nat :| k < n && s.polls[k].time == was.missing.value && GoneSince(s.polls, id, k);
      assert s.polls[k].time > 0 && t.polls[k] == s.polls[k];
    }
    assert forall k: nat :: k < n ==> t.polls[k] == s.polls[k];
    hide GoneSince, CleanedUp, Absent;
  }

  /** And to one that has no data afterwards. */
  lemma PollLeavesNoMark(s: State, e: Event, rememberTime: int, id: Id)
    requires Inv(s) && Enabled(s, e) && e.FullPoll?
    requires id !in Step(s, e, rememberTime).data.offerData
    ensures forall k: nat :: k < |s.polls| + 1 ==> !GoneSince(Step(s, e, rememberTime).polls, id, k)
  {
    var t := Step(s, e, rememberTime);
    var n := |s.polls|;
    assert id !in t.polls[n].marked && (id in s.data.offerData ==> id in t.polls[n].removed);
    forall k: nat | k < n ensures !GoneSince(t.polls, id, k) {
      NotGoneLater(s.polls, t.polls[n], id, k);
      assert MarkThere(s.polls, id, DataOf(s.data.offerData, id));
    }
  }

  lemma StepKeepsInv(s: State, e: Event, rememberTime: int)
    requires Inv(s) && Enabled(s, e)
    ensures Inv(Step(s, e, rememberTime))
  {
    var t := Step(s, e, rememberTime);
    if e.FullPoll? {
      forall id
        ensures MarkTrue(t.polls, id, DataOf(t.data.offerData, id)) &&
            MarkThere(t.polls, id, DataOf(t.data.offerData, id))
      {
        if id in t.data.offerData {
          PollKeepsMark(s, e, rememberTime, id);
        } else {
          PollLeavesNoMark(s, e, rememberTime, id);
        }
      }
    } else {
      assert forall id :: DataOf(t.data.offerData, id).missing == DataOf(s.data.offerData, id).missing;
      hide GoneSince;
    }
  }

  ghost predicate Runs(s: State, es: seq<Event>, t: State, rememberTime: int)
    decreases |es|
  {
    if es == [] then s == t
    else Enabled(s, es[0]) && Runs(Step(s, es[0], rememberTime), es[1..], t, rememberTime)
  }

  lemma {:induction false} RunsKeepInv(s: State, es: seq<Event>, t: State, rememberTime: int)
    requires Inv(s) && Runs(s, es, t, rememberTime)
    ensures Inv(t)
    decreases |es|
  {
    if es != [] {
      StepKeepsInv(s, es[0], rememberTime);
      RunsKeepInv(Step(s, es[0], rememberTime), es[1..], t, rememberTime);
    }
  }

  ghost predicate Reachable(s: State, rememberTime: int) {
    exists es :: Runs(State(PollData({}, {}, {}, map[]), []), es, s, rememberTime)
  }

  lemma ReachableInv(s: State, rememberTime: int)
    requires Reachable(s, rememberTime)
    ensures Inv(s)
  {
    var s0 := State(PollData({}, {}, {}, map[]), []);
    var es :| Runs(s0, es, s, rememberTime);
    RunsKeepInv(s0, es, s, rememberTime);
  }

  /** The offer is gone since a poll at least `rememberTime` ago. */
  predicate LongGone(polls: seq<Poll>, id: Id, now: int, rememberTime: int) {
    exists k: nat :: k < |polls| && polls[k].time + rememberTime <= now && GoneSince(polls, id, k)
  }

  /** After any run a full poll removes an offer it does not list exactly if the offer is
      tracked, its last published state is completed, and it is gone since a poll at least
      `rememberTime` ago (if there is any time to remember). */
  lemma RemovedExactlyWhenLongGone(s: State, e: Event, rememberTime: int, id: Id)
    requires Reachable(s, rememberTime) && Enabled(s, e) && e.FullPoll?
    requires id in s.data.offerData && id !in e.sent && id !in e.received
    ensures id !in Step(s, e, rememberTime).data.offerData <==>
      && (id in s.data.sent || id in s.data.received)
      && IsCompleted(s.data.offerData[id].published)
      && (rememberTime <= 0 || LongGone(s.polls, id, e.now, rememberTime))
  {
    ReachableInv(s, rememberTime);
    var d := s.data.offerData[id];
    assert DataOf(s.data.offerData, id) == d;
    assert Reappeared(s.data.offerData, e.sent + e.received)[id] == d;
    if d.missing.Some? {
      var k: nat :| k < |s.polls| && s.polls[k].time == d.missing.value && GoneSince(s.polls, id, k);
      assert 0 < d.missing.value <= e.now;
      assert LongGone(s.polls, id, e.now, rememberTime) <==> d.missing.value + rememberTime <= e.now;
    } else {
      assert !LongGone(s.polls, id, e.now, rememberTime);
    }
    hide GoneSince, LongGone;
    assert Expired(d, e.now, rememberTime) <==>
        IsCompleted(d.published) && (rememberTime <= 0 || LongGone(s.polls, id, e.now, rememberTime));
  }

  /** A step removes an offer only if it is absent from a full poll; its four entries go
      together, and nothing of any other offer goes. */
  lemma RemovedTogether(s: State, e: Event, rememberTime: int, id: Id)
    requires Enabled(s, e)
    ensures var t := Step(s, e, rememberTime);
      && (id in s.data.offerData && id !in t.data.offerData ==>
            && e.FullPoll? && id in Absent(s.data, e.sent, e.received) && IsCompleted(s.data.offerData[id].published)
            && id !in t.data.sent && id !in t.data.received && id !in t.data.timestamps)
      && (id in t.data.offerData || id !in s.data.offerData ==>
            && (id in s.data.sent ==> id in t.data.sent) && (id in s.data.received ==> id in t.data.received)
            && (id in s.data.timestamps ==> id in t.data.timestamps))
  {
  }

  /** Reappearing restarts the span: an offer listed where it belongs is not removed, and is
      gone since no poll up to then. */
  lemma ReappearingRestarts(s: State, e: Event, rememberTime: int, id: Id)
    requires Enabled(s, e) && e.FullPoll? && id in s.data.offerData
    requires id in e.sent + e.received && id !in Absent(s.data, e.sent, e.received)
    ensures var t := Step(s, e, rememberTime);
      && id in t.data.offerData && t.data.offerData[id].missing == None
      && forall k: nat :: k < |t.polls| ==> !GoneSince(t.polls, id, k)
  {
    var t := Step(s, e, rememberTime);
    assert id in t.polls[|s.polls|].listed && id !in t.polls[|s.polls|].absent;
  }

  /** In particular one that is in the poll's list of every kind it is tracked as. */
  lemma ListedIsKept(s: State, e: Event, rememberTime: int, id: Id)
    requires Enabled(s, e) && e.FullPoll? && id in s.data.offerData && (id in e.sent || id in e.received)
    requires (id in s.data.sent ==> id in e.sent) && (id in s.data.received ==> id in e.received)
    ensures var t := Step(s, e, rememberTime);
      && id in t.data.offerData && t.data.offerData[id] == s.data.offerData[id].(missing := None)
      && (id in t.data.sent <==> id in s.data.sent) && (id in t.data.received <==> id in s.data.received)
  {
  }

  /** What other changes of the poll data do: an offer is tracked as ours or theirs, or a state of
      it is published, which leaves its mark. */
  lemma OtherChanges(s: State, id: Id, ours: bool, state: OfferState, rememberTime: int)
    ensures var t := Step(s, Track(id, ours), rememberTime);
      && t.data.sent == (if ours then s.data.sent + {id} else s.data.sent)
      && t.data.received == (if ours then s.data.received else s.data.received + {id})
      && id in t.data.timestamps && t.data.offerData == s.data.offerData && t.polls == s.polls
    ensures var t := Step(s, Publish(id, state), rememberTime);
      && id in t.data.offerData && t.data.offerData[id].published == Some(state)
      && (id in s.data.offerData ==> t.data.offerData[id].missing == s.data.offerData[id].missing)
      && t.data.sent == s.data.sent && t.data.received == s.data.received
  {
  }

  /** Offers of which the last published state is active, awaits confirmation or is in escrow are
      neither removed nor marked by any poll; all others are, also those without any. */
  lemma OnlyCompletedAreForgotten(s: State, e: Event, rememberTime: int, id: Id)
    requires Enabled(s, e) && e.FullPoll? && id in s.data.offerData
    requires id !in e.sent && id !in e.received && (id in s.data.sent || id in s.data.received)
    ensures var t := Step(s, e, rememberTime);
      match s.data.offerData[id].published
      case Some(Active) => id in t.data.offerData && t.data.offerData[id] == s.data.offerData[id]
      case Some(CreatedNeedsConfirmation) => id in t.data.offerData && t.data.offerData[id] == s.data.offerData[id]
      case Some(InEscrow) => id in t.data.offerData && t.data.offerData[id] == s.data.offerData[id]
      case Some(Other(_)) => id in t.data.offerData ==> t.data.offerData[id].missing.Some?
      case None => id in t.data.offerData ==> t.data.offerData[id].missing.Some?
  {
    assert Reappeared(s.data.offerData, e.sent + e.received)[id] == s.data.offerData[id];
  }
}
