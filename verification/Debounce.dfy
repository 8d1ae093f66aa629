/** The event loop of the file observer: it debounces per path and keeps its memory small. */
module Debouncing {
  import opened Options
  import opened Sequences

  /** Readings of the monotonic clock, in nanoseconds. */
  type Time = int

  type Path = string

  const MILLI: int := 1_000_000
  const SECOND: int := 1_000_000_000
  const DEBOUNCE_MS: int := 300
  const RETENTION_SECS: int := 5
  const PRUNE_ABOVE: nat := 1000

  datatype EventKind = Create | Modify | Remove | Access | Any

  datatype FileChangeKind = Created | Modified | Deleted

  function ChangeKind(kind: EventKind): Option<FileChangeKind> {
    match kind
    case Create => Some(Created)
    case Modify => Some(Modified)
    case Remove => Some(Deleted)
    case _ => None
  }

  /** The callback slot as the loop finds it: locked and empty, locked and filled, or poisoned. */
  datatype CallbackSlot = Empty | Filled | Poisoned

  datatype Event = Event(kind: EventKind, paths: seq<Path>, at: Time, paused: bool, slot: CallbackSlot)

  /** One path of one event, offered for notification. */
  datatype Offer = Offer(path: Path, kind: FileChangeKind, at: Time)

  function Offers(paths: seq<Path>, kind: FileChangeKind, now: Time): seq<Offer> {
    if paths == [] then [] else Offers(paths[..|paths| - 1], kind, now) + [Offer(paths[|paths| - 1], kind, now)]
  }

  function OffersOf(event: Event): seq<Offer> {
    if event.paused || ChangeKind(event.kind).None? || event.slot != Filled then []
    else Offers(event.paths, ChangeKind(event.kind).value, event.at)
  }

  lemma {:induction false} OffersInOrder(paths: seq<Path>, kind: FileChangeKind, now: Time)
    ensures |Offers(paths, kind, now)| == |paths|
    ensures forall i :: 0 <= i < |paths| ==> Offers(paths, kind, now)[i] == Offer(paths[i], kind, now)
  {
    if paths != [] {
      OffersInOrder(paths[..|paths| - 1], kind, now);
    }
  }

  /** An event offers its paths, in order, exactly when the observer is not paused, a callback is set and free, and
      the event creates, modifies or removes; the offers say which of the three it was, and when. */
  lemma EventOffersExactly(event: Event)
    ensures var offers := OffersOf(event);
      && |offers| == (if !event.paused && event.slot == Filled && event.kind in {Create, Modify, Remove}
                      then |event.paths| else 0)
      && forall i :: 0 <= i < |offers| ==>
        && offers[i].path == event.paths[i] && offers[i].at == event.at
        && (offers[i].kind == Created <==> event.kind == Create)
        && (offers[i].kind == Modified <==> event.kind == Modify)
        && (offers[i].kind == Deleted <==> event.kind == Remove)
  {
    if ChangeKind(event.kind).Some? {
      OffersInOrder(event.paths, ChangeKind(event.kind).value, event.at);
    }
  }

  // ----- the debouncer that never forgets -----

  predicate Passes(last: map<Path, Time>, offer: Offer) {
    offer.path in last ==> (offer.at - last[offer.path]) / MILLI >= DEBOUNCE_MS
  }

  /** When each path was last notified. */
  function LastTimes(offers: seq<Offer>): map<Path, Time> {
    if offers == [] then map[]
    else
      var last, offer := LastTimes(offers[..|offers| - 1]), offers[|offers| - 1];
      if Passes(last, offer) then last[offer.path := offer.at] else last
  }

  predicate Notified(offers: seq<Offer>, k: nat)
    requires k < |offers|
  {
    Passes(LastTimes(offers[..k]), offers[k])
  }

  function Notifications(offers: seq<Offer>): seq<Offer> {
    if offers == [] then []
    else
      var front, n := Notifications(offers[..|offers| - 1]), |offers| - 1;
      if Notified(offers, n) then front + [offers[n]] else front
  }

  ghost predicate InOrder(offers: seq<Offer>) {
    forall i, j :: 0 <= i < j < |offers| ==> offers[i].at <= offers[j].at
  }

  /** The latest notification of a path is the one remembered. */
  lemma {:induction false} LastTimesAreLatest(offers: seq<Offer>, p: Path)
    requires InOrder(offers)
    ensures forall j ::
      0 <= j < |offers| && Notified(offers, j) && offers[j].path == p ==>
        p in LastTimes(offers) && offers[j].at <= LastTimes(offers)[p]
    ensures p in LastTimes(offers)
      ==> exists j ::
        0 <= j < |offers| && Notified(offers, j) && offers[j].path == p
        && offers[j].at == LastTimes(offers)[p]
  {
    if offers != [] {
      var n := |offers| - 1;
      var front := offers[..n];
      LastTimesAreLatest(front, p);
      forall j | 0 <= j < n ensures Notified(offers, j) <==> Notified(front, j) {
        assert front[..j] == offers[..j];
      }
      assert Notified(offers, n) <==> Passes(LastTimes(front), offers[n]);
      if p in LastTimes(offers) && !(Notified(offers, n) && offers[n].path == p) {
        var j :| 0 <= j < n && Notified(front, j) && offers[j].path == p && offers[j].at == LastTimes(front)[p];
        assert Notified(offers, j);
      }
    }
  }

  /** A path is notified exactly when no notification of it is less than 300 ms old. */
  lemma NotifiedExactlyWhen(offers: seq<Offer>, k: nat)
    requires InOrder(offers) && k < |offers|
    ensures Notified(offers, k) <==>
      forall j :: 0 <= j < k && Notified(offers, j) && offers[j].path == offers[k].path
        ==> offers[k].at - offers[j].at >= DEBOUNCE_MS * MILLI
  {
    var front, p := offers[..k], offers[k].path;
    LastTimesAreLatest(front, p);
    forall j | 0 <= j < k ensures Notified(offers, j) <==> Notified(front, j) {
      assert front[..j] == offers[..j];
    }
    if p in LastTimes(front) {
      var j :| 0 <= j < k && Notified(front, j) && front[j].path == p && front[j].at == LastTimes(front)[p];
      assert Notified(offers, j);
    }
  }

  /** How many of the first k offers are notified. */
  function NotifiedBefore(offers: seq<Offer>, k: nat): nat
    requires k <= |offers|
  {
    if k == 0 then 0 else NotifiedBefore(offers, k - 1) + if Notified(offers, k - 1) then 1 else 0
  }

  lemma {:induction false} NotificationsCounted(offers: seq<Offer>, n: nat)
    requires n <= |offers|
    ensures |Notifications(offers[..n])| == NotifiedBefore(offers, n)
  {
    if n > 0 {
      NotificationsCounted(offers, n - 1);
      assert offers[..n][..n - 1] == offers[..n - 1];
    }
  }

  predicate CalledAt(calls: seq<Offer>, i: nat, offer: Offer) { i < |calls| && calls[i] == offer }

  lemma NextNotification(offers: seq<Offer>, n: nat)
    requires n < |offers|
    ensures Notifications(offers[..n + 1])
      == if Notified(offers, n) then Notifications(offers[..n]) + [offers[n]] else Notifications(offers[..n])
  {
    assert offers[..n + 1][..n] == offers[..n];
  }

  /** The notifications are as many as the notified offers, each at its place in their order. */
  lemma {:induction false} NotificationsInOrder(offers: seq<Offer>, n: nat, k: nat)
    requires k < n <= |offers| && Notified(offers, k)
    ensures CalledAt(Notifications(offers[..n]), NotifiedBefore(offers, k), offers[k])
  {
    NextNotification(offers, n - 1);
    NotificationsCounted(offers, k);
    if k < n - 1 {
      NotificationsInOrder(offers, n - 1, k);
    }
  }

  lemma OneMoreOffer(offers: seq<Offer>, offer: Offer)
    ensures var last := LastTimes(offers);
      if Passes(last, offer)
      then LastTimes(offers + [offer]) == last[offer.path := offer.at]
        && Notifications(offers + [offer]) == Notifications(offers) + [offer]
      else LastTimes(offers + [offer]) == last && Notifications(offers + [offer]) == Notifications(offers)
  {
    assert (offers + [offer])[..|offers|] == offers;
  }

  // ----- the loop, which forgets -----

  lemma StillInOrder(offers: seq<Offer>, offer: Offer)
    requires InOrder(offers) && forall i :: 0 <= i < |offers| ==> offers[i].at <= offer.at
    ensures InOrder(offers + [offer])
  {}

  /** What is remembered is right, and what is forgotten is too old to matter. */
  ghost predicate Remembers(debounce: map<Path, Time>, last: map<Path, Time>, clock: Time) {
    && (forall p :: p in debounce ==> p in last && debounce[p] == last[p])
    && (forall p :: p in last && p !in debounce ==> clock - last[p] >= RETENTION_SECS * SECOND)
  }

  /** The loop decides like the debouncer that never forgets. */
  lemma ForgettingIsInvisible(debounce: map<Path, Time>, last: map<Path, Time>, offer: Offer)
    requires Remembers(debounce, last, offer.at)
    ensures Passes(debounce, offer) <==> Passes(last, offer)
    ensures Passes(last, offer) ==> Remembers(debounce[offer.path := offer.at], last[offer.path := offer.at], offer.at)
  {}

  lemma PruningKeepsWhatMatters(debounce: map<Path, Time>, pruned: map<Path, Time>, last: map<Path, Time>, now: Time)
    requires Remembers(debounce, last, now)
    requires pruned == map p | p in debounce && (now - debounce[p]) / SECOND < RETENTION_SECS :: debounce[p]
    ensures Remembers(pruned, last, now)
  {}

  class NotifyLoop {
    var debounce: map<Path, Time>
    /** Every call of the user's callback so far. */
    var callbacks: seq<Offer>
    ghost var offered: seq<Offer>
    ghost var clock: Time

    /** The callbacks made are those of the debouncer that never forgets. */
    ghost predicate Valid()
      reads this
    {
      && InOrder(offered) && (forall i :: 0 <= i < |offered| ==> offered[i].at <= clock)
      && Remembers(debounce, LastTimes(offered), clock)
      && callbacks == Notifications(offered)
    }

    constructor (now: Time)
      ensures Valid() && callbacks == [] && offered == [] && clock == now
    {
      debounce := map[];
      callbacks := [];
      offered := [];
      clock := now;
    }

    method OfferPath(path: Path, kind: FileChangeKind, now: Time)
      requires Valid() && clock == now
      modifies this`debounce, this`callbacks, this`offered
      ensures Valid() && offered == old(offered) + [Offer(path, kind, now)]
    {
      ghost var offer := Offer(path, kind, now);
      OneMoreOffer(offered, offer);
      StillInOrder(offered, offer);
      ForgettingIsInvisible(debounce, LastTimes(offered), offer);
      offered := offered + [offer];
      if path in debounce && (now - debounce[path]) / MILLI < DEBOUNCE_MS {
        return;
      }
      debounce := debounce[path := now];
      callbacks := callbacks + [Offer(path, kind, now)];
    }

    method OfferPaths(paths: seq<Path>, kind: FileChangeKind, now: Time)
      requires Valid() && clock == now
      modifies this`debounce, this`callbacks, this`offered
      ensures Valid() && offered == old(offered) + Offers(paths, kind, now)
    {
      for i := 0 to |paths|
        invariant Valid()
        invariant offered == old(offered) + Offers(paths[..i], kind, now)
      {
        OfferPath(paths[i], kind, now);
        assert paths[..i + 1][..i] == paths[..i];
      }
      assert paths[..|paths|] == paths;
    }

    method HandleEvent(event: Event)
      requires Valid() && clock <= event.at
      modifies this
      ensures Valid() && clock == event.at
      ensures offered == old(offered) + OffersOf(event)
      ensures !event.paused && ChangeKind(event.kind).Some? && event.slot != Poisoned ==>
        |debounce| <= PRUNE_ABOVE || forall p :: p in debounce ==> event.at - debounce[p] < RETENTION_SECS * SECOND
    {
      clock := event.at;
      if event.paused {
        return;
      }
      var kind := ChangeKind(event.kind);
      if kind.None? || event.slot == Poisoned {
        return;
      }
      if event.slot == Filled {
        OfferPaths(event.paths, kind.value, event.at);
      }
      if |debounce| > PRUNE_ABOVE {
        ghost var before := debounce;
        debounce := map p | p in debounce && (event.at - debounce[p]) / SECOND < RETENTION_SECS :: debounce[p];
        PruningKeepsWhatMatters(before, debounce, LastTimes(offered), event.at);
      }
    }
  }
}
