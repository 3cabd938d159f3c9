/** Why a launchpad page that follows the event stream shows what a reload would show. */
module Convergence {
  import opened Wrappers
  import opened Text
  import opened Domain
  import opened AccessPolicies
  import opened ServiceCaches
  import opened Hubs
  import opened LaunchpadViews
  import opened Fanouts
  import HubProtocol
  import Runs

  ghost predicate VisibleIn(services: map<Uid, ServiceInfo>, uid: Uid, p: Principal)
  {
    uid in services && CanSee(services[uid], p)
  }

  /** A stored status as a page may show it: healthy and unhealthy as such, anything else as it is or as unknown. */
  predicate ShowsStatus(shown: string, stored: string)
  {
    if SameWord(stored, "healthy") then SameWord(shown, "healthy")
    else if SameWord(stored, "unhealthy") then SameWord(shown, "unhealthy")
    else shown == stored || shown == "Unknown"
  }

  /**
   A card shows a service: its identity, its status, and its display name, or its name if it has no
   display name and came from the list.
   */
  predicate Shows(card: Card, service: ServiceInfo)
  {
    && card.id == service.uid
    && (card.name == service.displayName || (service.displayName == "" && card.name == service.name))
    && ShowsStatus(card.status, service.health.status)
  }

  lemma EventCardShows(card: Card, service: ServiceInfo)
    requires EventCard(card, service)
    ensures Shows(card, service)
  {
    assert SameWord("Healthy", "healthy") && SameWord("Unhealthy", "unhealthy");
    hide SameWord;
  }

  lemma SocketCardId(service: ServiceInfo)
    ensures SocketCard(service).id == service.uid
  {
  }

  /** As for `uid`, the page is what GET /services would return. */
  ghost predicate Agrees(view: seq<Card>, services: map<Uid, ServiceInfo>, uid: Uid, p: Principal)
  {
    && (HasId(view, uid) <==> VisibleIn(services, uid, p))
    && (forall card :: card in view && card.id == uid && uid in services ==> Shows(card, services[uid]))
  }

  /** One card for each service GET /services would list now, showing it as cached now. */
  ghost predicate Converged(view: seq<Card>, services: map<Uid, ServiceInfo>, p: Principal)
  {
    NoDuplicates(view) && forall uid :: Agrees(view, services, uid, p)
  }

  /** The page after a step whose frame the client gets if it may. */
  ghost function StepView(view: seq<Card>, c: CacheState, e: Event, p: Principal): seq<Card>
  {
    var fs := Published(c, e);
    if fs != [] && Delivers(fs[0], p, true) then Receive(view, fs[0]) else view
  }

  ghost function ViewAfter(view: seq<Card>, c: CacheState, events: seq<Event>, p: Principal): seq<Card>
  {
    if events == [] then view
    else
      var earlier := events[..|events| - 1];
      StepView(ViewAfter(view, c, earlier, p), CacheAfter(c, earlier), events[|events| - 1], p)
  }

  /** It is the page that received what the hub sends of what was published. */
  lemma {:induction false} ViewAfterIsReceived(view: seq<Card>, c: CacheState, events: seq<Event>, p: Principal)
    ensures ViewAfter(view, c, events, p) == ReceiveAll(view, Visible(FramesOf(c, events), p, true))
  {
    if events != [] {
      var earlier := events[..|events| - 1];
      var fs := Published(CacheAfter(c, earlier), events[|events| - 1]);
      assert FramesOf(c, events) == FramesOf(c, earlier) + fs && |fs| <= 1;
      ViewAfterIsReceived(view, c, earlier, p);
      if fs == [] {
        assert FramesOf(c, events) == FramesOf(c, earlier);
      } else {
        assert fs == [fs[0]];
        var before := Visible(FramesOf(c, earlier), p, true);
        VisibleOne(FramesOf(c, earlier), fs[0], p, true);
        assert before + [] == before;
        assert (before + [fs[0]])[..|before|] == before;
      }
    }
    hide Delivers, Receive, CacheAfter, Published, FramesOf, CanSee;
  }

  /** The step takes a service away from `p` without taking it out of the cache. */
  ghost predicate Loses(c: CacheState, e: Event, uid: Uid, p: Principal)
  {
    VisibleIn(c.services, uid, p) && uid in Apply(c, e).services && !VisibleIn(Apply(c, e).services, uid, p)
  }

  ghost predicate LosesNothing(c: CacheState, e: Event, p: Principal)
  {
    forall uid :: !Loses(c, e, uid, p)
  }

  ghost predicate KeepsAccess(c: CacheState, events: seq<Event>, p: Principal)
  {
    events == [] ||
    var earlier := events[..|events| - 1];
    KeepsAccess(c, earlier, p) && LosesNothing(CacheAfter(c, earlier), events[|events| - 1], p)
  }

  // ---- One step -------------------------------------------------------------

  predicate About(f: Frame, uid: Uid)
  {
    f.ServiceEvent? && f.service.Some? && f.service.value.uid == uid
  }

  /** What a step does to one service: nothing, or a change of which its frame tells. */
  lemma StepEffect(c: CacheState, e: Event, uid: Uid)
    requires Wellformed(c)
    ensures var before, after := c.services, Apply(c, e).services;
            || ((uid in before <==> uid in after) && (uid in before ==> before[uid] == after[uid])
                && forall f :: f in Published(c, e) ==> !About(f, uid))
            || (uid in after && after[uid].uid == uid
                && Published(c, e) == [ServiceEvent(if e.OnAdd? then Added else Modified, Some(after[uid]))])
            || (uid in before && uid !in after && before[uid].uid == uid
                && Published(c, e) == [ServiceEvent(Deleted, Some(before[uid]))])
  {
    hide ConfigOf, DropsAfterAdd;
    var kind := if e.OnAdd? then Added else Modified;
    assert uid in Apply(c, e).services && Published(c, e) != [] && About(Published(c, e)[0], uid) ==>
           Published(c, e) == [ServiceEvent(kind, Some(Apply(c, e).services[uid]))];
  }

  /** The client hears about `uid` in this step. */
  ghost predicate Touches(c: CacheState, e: Event, uid: Uid, p: Principal)
  {
    exists f :: f in Published(c, e) && About(f, uid) && Delivers(f, p, true)
  }

  ghost predicate SameCards(view: seq<Card>, view': seq<Card>, uid: Uid)
  {
    forall card: Card :: card.id == uid ==> (card in view' <==> card in view)
  }

  /** Hearing of a service puts the page right about it; hearing of another leaves it alone. */
  lemma ReceiveRight(view: seq<Card>, f: Frame, services: map<Uid, ServiceInfo>, uid: Uid, p: Principal)
    requires NoDuplicates(view) && f.ServiceEvent? && f.service.Some? && Delivers(f, p, true)
    ensures NoDuplicates(Receive(view, f))
    ensures (About(f, uid) && if f.kind == Deleted then uid !in services
        else uid in services && services[uid] == f.service.value) ==>
              Agrees(Receive(view, f), services, uid, p)
    ensures !About(f, uid) ==> SameCards(view, Receive(view, f), uid)
  {
    var service := f.service.value;
    hide SocketCard, EventCard, Shows, Upserted, Without, NoDuplicates, CanSee;
    WithoutExact(view, service.uid);
    UpsertExact(view, SocketCard(service));
    SocketCardId(service);
    if f.kind != Deleted {
      ReceivedCard(view, f.kind, service);
      forall card | card in Receive(view, f) && card.id == service.uid ensures Shows(card, service) {
        EventCardShows(card, service);
      }
    }
  }

  lemma ViewStep(view: seq<Card>, c: CacheState, e: Event, uid: Uid, p: Principal)
    requires Wellformed(c) && NoDuplicates(view)
    ensures var view' := StepView(view, c, e, p);
            && NoDuplicates(view')
            && (if Touches(c, e, uid, p) then Agrees(view', Apply(c, e).services, uid, p)
                  else SameCards(view, view', uid))
  {
    StepEffect(c, e, uid);
    var fs := Published(c, e);
    assert |fs| <= 1;
    if fs != [] && fs[0].ServiceEvent? && Delivers(fs[0], p, true) {
      ReceiveRight(view, fs[0], Apply(c, e).services, uid, p);
    }
    hide Apply, Published, Agrees, SameCards, Wellformed, NoDuplicates;
  }

  /** Unless access is lost, what the client does not hear of did not change for it. */
  lemma UntouchedSame(c: CacheState, e: Event, uid: Uid, p: Principal)
    requires Wellformed(c) && !Touches(c, e, uid, p) && !Loses(c, e, uid, p)
    ensures VisibleIn(Apply(c, e).services, uid, p) <==> VisibleIn(c.services, uid, p)
    ensures VisibleIn(c.services, uid, p) ==> Apply(c, e).services[uid] == c.services[uid]
  {
    StepEffect(c, e, uid);
    var fs := Published(c, e);
    assert fs != [] && About(fs[0], uid) ==> !Delivers(fs[0], p, true) by {
      assert fs != [] ==> fs[0] in fs;
    }
    hide Apply, Published, Wellformed, CanSee;
  }

  lemma AgreesSame(view: seq<Card>, view': seq<Card>, services: map<Uid, ServiceInfo>, services': map<Uid, ServiceInfo>,
                   uid: Uid, p: Principal)
    requires Agrees(view, services, uid, p) && SameCards(view, view', uid)
    requires VisibleIn(services', uid, p) <==> VisibleIn(services, uid, p)
    requires VisibleIn(services, uid, p) ==> services'[uid] == services[uid]
    ensures Agrees(view', services', uid, p)
  {
    if HasId(view, uid) {
      var card :| card in view && card.id == uid;
      assert card in view';
    }
    hide CanSee, Shows;
  }

  /** Exactly when a step keeps the page right: it must not take a service away from the viewer and leave it cached. */
  lemma StepConvergesIff(view: seq<Card>, c: CacheState, e: Event, p: Principal)
    requires Wellformed(c) && Converged(view, c.services, p)
    ensures Converged(StepView(view, c, e, p), Apply(c, e).services, p) <==> LosesNothing(c, e, p)
  {
    var view' := StepView(view, c, e, p);
    forall uid ensures Agrees(view', Apply(c, e).services, uid, p) <==> !Loses(c, e, uid, p) {
      StepAgreesIff(view, c, e, uid, p);
    }
    ViewStep(view, c, e, "", p);
    hide Agrees, Loses, Apply, StepView, Wellformed, NoDuplicates;
  }

  lemma StepAgreesIff(view: seq<Card>, c: CacheState, e: Event, uid: Uid, p: Principal)
    requires Wellformed(c) && NoDuplicates(view) && Agrees(view, c.services, uid, p)
    ensures Agrees(StepView(view, c, e, p), Apply(c, e).services, uid, p) <==> !Loses(c, e, uid, p)
  {
    ViewStep(view, c, e, uid, p);
    var view' := StepView(view, c, e, p);
    if Loses(c, e, uid, p) {
      LossUntouched(c, e, uid, p);
      assert HasId(view', uid) by {
        var card :| card in view && card.id == uid;
        assert card in view';
      }
    } else if !Touches(c, e, uid, p) {
      UntouchedSame(c, e, uid, p);
      AgreesSame(view, view', c.services, Apply(c, e).services, uid, p);
    }
    hide Apply, StepView, Wellformed, NoDuplicates, Touches, CanSee, Shows;
  }

  lemma LossUntouched(c: CacheState, e: Event, uid: Uid, p: Principal)
    requires Wellformed(c) && Loses(c, e, uid, p)
    ensures !Touches(c, e, uid, p)
  {
    StepEffect(c, e, uid);
    hide Apply, Published, Wellformed, CanSee;
  }

  // ---- Whole runs -----------------------------------------------------------

  ghost predicate Heard(c: CacheState, events: seq<Event>, uid: Uid, p: Principal)
  {
    events != [] &&
    var earlier := events[..|events| - 1];
    Heard(c, earlier, uid, p) || Touches(CacheAfter(c, earlier), events[|events| - 1], uid, p)
  }

  /** Whatever the page showed at first, it is right about every service it has since heard of. */
  lemma {:induction false} HeardIsRight(view: seq<Card>, c: CacheState, events: seq<Event>, uid: Uid, p: Principal)
    requires Wellformed(c) && NoDuplicates(view) && KeepsAccess(c, events, p)
    ensures var view' := ViewAfter(view, c, events, p);
            && NoDuplicates(view')
            && (if Heard(c, events, uid, p) then Agrees(view', CacheAfter(c, events).services, uid, p)
                  else SameCards(view, view', uid))
  {
    if events != [] {
      var earlier, e := events[..|events| - 1], events[|events| - 1];
      var mid, before := CacheAfter(c, earlier), ViewAfter(view, c, earlier, p);
      HeardIsRight(view, c, earlier, uid, p);
      CacheAfterWellformed(c, earlier);
      ViewStep(before, mid, e, uid, p);
      if !Touches(mid, e, uid, p) {
        UntouchedSame(mid, e, uid, p);
        if Heard(c, earlier, uid, p) {
          AgreesSame(before, StepView(before, mid, e, p), mid.services, Apply(mid, e).services, uid, p);
        }
      }
    }
    hide Agrees, Touches, Loses, Apply, StepView, Wellformed, NoDuplicates, VisibleIn;
  }

  /** A service the viewer heard nothing of is to it what it was. */
  lemma {:induction false} UnheardSame(c: CacheState, events: seq<Event>, uid: Uid, p: Principal)
    requires Wellformed(c) && KeepsAccess(c, events, p) && !Heard(c, events, uid, p)
    ensures var after := CacheAfter(c, events).services;
            && (VisibleIn(after, uid, p) <==> VisibleIn(c.services, uid, p))
            && (VisibleIn(c.services, uid, p) ==> after[uid] == c.services[uid])
  {
    if events != [] {
      var earlier, e := events[..|events| - 1], events[|events| - 1];
      UnheardSame(c, earlier, uid, p);
      CacheAfterWellformed(c, earlier);
      UntouchedSame(CacheAfter(c, earlier), e, uid, p);
    }
    hide Touches, Loses, Apply, Wellformed, CanSee;
  }

  lemma {:induction false} LaterEvents(c: CacheState, early: seq<Event>, late: seq<Event>, uid: Uid, p: Principal)
    ensures KeepsAccess(c, early + late, p) ==> KeepsAccess(CacheAfter(c, early), late, p)
    ensures Heard(CacheAfter(c, early), late, uid, p) ==> Heard(c, early + late, uid, p)
  {
    if late != [] {
      var n := |late| - 1;
      assert (early + late)[..|early + late| - 1] == early + late[..n];
      LaterEvents(c, early, late[..n], uid, p);
      CacheAfterConcat(c, early, late[..n]);
    }
    hide Touches, LosesNothing, CacheAfter, FramesOf;
  }

  /** What GET /services goes through: each cached service once. */
  ghost predicate IsGetAll(listing: seq<ServiceInfo>, services: map<Uid, ServiceInfo>)
  {
    && (forall s :: s in listing <==> s.uid in services && services[s.uid] == s)
    && (forall i, j :: 0 <= i < j < |listing| ==> listing[i].uid != listing[j].uid)
  }

  lemma {:induction false} ListingNoDuplicates(listing: seq<ServiceInfo>, p: Principal, pins: set<Uid>)
    requires forall i, j :: 0 <= i < j < |listing| ==> listing[i].uid != listing[j].uid
    ensures NoDuplicates(Listing(listing, p, pins))
  {
    if listing != [] {
      var rest, last := listing[..|listing| - 1], listing[|listing| - 1];
      ListingNoDuplicates(rest, p, pins);
      forall card | card in Listing(rest, p, pins) ensures card.id != last.uid {
        ListedCards(rest, p, pins, card);
      }
      var cards := Listing(rest, p, pins);
      assert forall i :: 0 <= i < |cards| ==> cards[i] in cards;
    }
    hide CanSee;
  }

  /** A fresh page is right. */
  lemma SnapshotConverged(listing: seq<ServiceInfo>, c: CacheState, p: Principal, pins: set<Uid>)
    requires Wellformed(c) && IsGetAll(listing, c.services)
    ensures Converged(Listing(listing, p, pins), c.services, p)
  {
    var view := Listing(listing, p, pins);
    ListingNoDuplicates(listing, p, pins);
    forall card ensures card in view <==>
        exists s :: s in listing && CanSee(s, p) && card == RestCard(s, s.uid in pins) {
      ListedCards(listing, p, pins, card);
    }
    hide Listing, CanSee, NoDuplicates;
    forall uid ensures Agrees(view, c.services, uid, p) {
      if VisibleIn(c.services, uid, p) {
        var s := c.services[uid];
        assert EntryOk(uid, s);
        assert s in listing && RestCard(s, uid in pins) in view;
      }
    }
  }

  /**
   The page of a client that began to take frames at cache state `c`, loaded the list
   after `early` more steps, and has taken every frame since: it is right after any
   further steps, frames older than the list and applied on top of it included.
   */
  lemma PageConverges(c: CacheState, early: seq<Event>, late: seq<Event>, listing: seq<ServiceInfo>, pins: set<Uid>,
                      p: Principal)
    requires Wellformed(c) && IsGetAll(listing, CacheAfter(c, early).services)
    requires KeepsAccess(c, early + late, p)
    ensures Converged(ViewAfter(Listing(listing, p, pins), c, early + late, p), CacheAfter(c, early + late).services, p)
  {
    var loaded := CacheAfter(c, early);
    var view := Listing(listing, p, pins);
    CacheAfterWellformed(c, early);
    SnapshotConverged(listing, loaded, p, pins);
    forall uid
      ensures var view' := ViewAfter(view, c, early + late, p);
              NoDuplicates(view') && Agrees(view', CacheAfter(c, early + late).services, uid, p)
    {
      PageAgrees(view, c, early, late, uid, p);
    }
    PageAgrees(view, c, early, late, "", p);
    hide Agrees, KeepsAccess, Wellformed, NoDuplicates, Listing, ViewAfter, CacheAfter, IsGetAll;
  }

  lemma PageAgrees(view: seq<Card>, c: CacheState, early: seq<Event>, late: seq<Event>, uid: Uid, p: Principal)
    requires Wellformed(c) && KeepsAccess(c, early + late, p)
    requires NoDuplicates(view) && Agrees(view, CacheAfter(c, early).services, uid, p)
    ensures var view' := ViewAfter(view, c, early + late, p);
            NoDuplicates(view') && Agrees(view', CacheAfter(c, early + late).services, uid, p)
  {
    var loaded := CacheAfter(c, early);
    CacheAfterWellformed(c, early);
    CacheAfterConcat(c, early, late);
    HeardIsRight(view, c, early + late, uid, p);
    LaterEvents(c, early, late, uid, p);
    if !Heard(c, early + late, uid, p) {
      UnheardSame(loaded, late, uid, p);
      AgreesSame(view, ViewAfter(view, c, early + late, p), loaded.services, CacheAfter(c, early + late).services, uid,
                 p);
    }
    hide Agrees, VisibleIn, Heard, KeepsAccess, Wellformed, NoDuplicates, ViewAfter, CacheAfter, FramesOf, SameCards;
  }

  /** A list entry read from `before` still tells the viewer what `after` holds about the service. */
  ghost predicate StillTells(before: map<Uid, ServiceInfo>, after: map<Uid, ServiceInfo>, uid: Uid, p: Principal)
  {
    && (VisibleIn(before, uid, p) <==> VisibleIn(after, uid, p))
    && (VisibleIn(before, uid, p) ==> Shows(RestCard(before[uid], false), after[uid]))
  }

  lemma ListingAgreesIff(listing: seq<ServiceInfo>, c: CacheState, later: map<Uid, ServiceInfo>, uid: Uid,
                         pins: set<Uid>, p: Principal)
    requires Wellformed(c) && IsGetAll(listing, c.services)
    ensures Agrees(Listing(listing, p, pins), later, uid, p) <==> StillTells(c.services, later, uid, p)
  {
    var view := Listing(listing, p, pins);
    SnapshotConverged(listing, c, p, pins);
    assert Agrees(view, c.services, uid, p);
    forall card | card in view && card.id == uid
      ensures uid in c.services && card == RestCard(c.services[uid], card.pinned) {
      ListedCards(listing, p, pins, card);
    }
    hide Listing, CanSee, IsGetAll, Wellformed, NoDuplicates;
    if HasId(view, uid) {
      var card :| card in view && card.id == uid;
      assert uid in later ==> (Shows(card, later[uid]) <==> Shows(RestCard(c.services[uid], false), later[uid]));
    }
  }

  /**
   A list read at `c` that arrives after the page has taken the frames of `gap` overwrites
   their news. Exactly when the page is right again after `late`: each service has been
   heard of since, or its entry in the list still tells what the cache then held.
   */
  lemma LateListConvergesIff(c: CacheState, gap: seq<Event>, late: seq<Event>, listing: seq<ServiceInfo>,
                             pins: set<Uid>, p: Principal)
    requires Wellformed(c) && IsGetAll(listing, c.services)
    requires KeepsAccess(CacheAfter(c, gap), late, p)
    ensures var arrived := CacheAfter(c, gap);
            Converged(ViewAfter(Listing(listing, p, pins), arrived, late, p), CacheAfter(c, gap + late).services,
                      p) <==>
            forall uid :: Heard(arrived, late, uid, p) || StillTells(c.services, arrived.services, uid, p)
  {
    var arrived := CacheAfter(c, gap);
    var view := Listing(listing, p, pins);
    CacheAfterWellformed(c, gap);
    CacheAfterConcat(c, gap, late);
    SnapshotConverged(listing, c, p, pins);
    var view' := ViewAfter(view, arrived, late, p);
    var now := CacheAfter(c, gap + late).services;
    forall uid
      ensures NoDuplicates(view')
      ensures Agrees(view', now, uid, p) <==>
          Heard(arrived, late, uid, p) || StillTells(c.services, arrived.services, uid, p)
    {
      ListingAgreesIff(listing, c, arrived.services, uid, pins, p);
      OverwrittenAgreesIff(view, arrived, late, uid, p);
    }
    OverwrittenAgreesIff(view, arrived, late, "", p);
    hide Agrees, KeepsAccess, Wellformed, NoDuplicates, Listing, ViewAfter, CacheAfter, FramesOf, IsGetAll, Heard,
         StillTells;
  }

  /**
   Whatever the page shows at first, after `late` it is right about a service exactly if it has
   heard of it or was right before.
   */
  lemma OverwrittenAgreesIff(view: seq<Card>, c: CacheState, late: seq<Event>, uid: Uid, p: Principal)
    requires Wellformed(c) && NoDuplicates(view) && KeepsAccess(c, late, p)
    ensures var view' := ViewAfter(view, c, late, p);
            && NoDuplicates(view')
            && (Agrees(view', CacheAfter(c, late).services, uid, p) <==>
                  Heard(c, late, uid, p) || Agrees(view, c.services, uid, p))
  {
    HeardIsRight(view, c, late, uid, p);
    if !Heard(c, late, uid, p) {
      var view', now := ViewAfter(view, c, late, p), CacheAfter(c, late).services;
      UnheardSame(c, late, uid, p);
      if Agrees(view, c.services, uid, p) {
        AgreesSame(view, view', c.services, now, uid, p);
      }
      if Agrees(view', now, uid, p) {
        AgreesSame(view', view, now, c.services, uid, p);
      }
    }
    hide Agrees, VisibleIn, Heard, KeepsAccess, Wellformed, NoDuplicates, ViewAfter, CacheAfter, FramesOf;
  }

  ghost function Delivered(view: seq<Card>, f: Frame, p: Principal): seq<Card>
  {
    if Delivers(f, p, true) then Receive(view, f) else view
  }

  /**
   `publishIfChanged` taken apart: the entry is read at `c` and published after the steps
   of `gap`. Exactly when a page that is right by then stays so: the viewer may not see the
   entry read, or still sees the service and the entry read shows it as cached now. A
   service deleted or hidden in `gap`, or with a newer status, is where it fails.
   */
  lemma LateModifiedConvergesIff(view: seq<Card>, c: CacheState, gap: seq<Event>, uid: Uid, p: Principal)
    requires Wellformed(c) && uid in c.services
    requires Converged(view, CacheAfter(c, gap).services, p)
    ensures var was, now := c.services[uid], CacheAfter(c, gap).services;
            Converged(Delivered(view, ServiceEvent(Modified, Some(was)), p), now, p) <==>
            (CanSee(was, p) ==> VisibleIn(now, uid, p) && Shows(SocketCard(was), now[uid]))
  {
    var was, now := c.services[uid], CacheAfter(c, gap).services;
    assert EntryOk(uid, was);
    StaleFrameIff(view, now, was, p);
    hide Wellformed, Converged, CacheAfter, Delivered, CanSee, Shows, SocketCard;
  }

  lemma StaleFrameIff(view: seq<Card>, now: map<Uid, ServiceInfo>, was: ServiceInfo, p: Principal)
    requires Converged(view, now, p)
    ensures Converged(Delivered(view, ServiceEvent(Modified, Some(was)), p), now, p) <==>
            (CanSee(was, p) ==> VisibleIn(now, was.uid, p) && Shows(SocketCard(was), now[was.uid]))
  {
    var view' := Delivered(view, ServiceEvent(Modified, Some(was)), p);
    if CanSee(was, p) {
      UpsertExact(view, SocketCard(was));
      hide Upserted, NoDuplicates, CanSee;
      forall u | u != was.uid ensures Agrees(view', now, u, p) {
        assert Agrees(view, now, u, p) && SameCards(view, view', u);
        AgreesSame(view, view', now, now, u, p);
      }
      assert Agrees(view', now, was.uid, p) <==> VisibleIn(now, was.uid, p) && Shows(SocketCard(was), now[was.uid]) by {
        var card :| card in view' && card.id == was.uid;
        assert card == SocketCard(was).(pinned := card.pinned);
      }
      hide Agrees;
    }
  }

  // ---- Schedules in which the page goes wrong --------------------------------

  /** After any events from the start, a public service is added; the viewer is anyone. */
  lemma AddedLast(events: seq<Event>, app: App, p: Principal)
    requires Listed(app) && app.landingPage.value.visibility == "public"
    ensures var c := CacheAfter(EMPTY, events + [OnAdd(app)]);
            && Wellformed(c) && VisibleIn(c.services, app.uid, p)
            && CacheAfter(c, [OnDelete(app.uid)]) == RemoveUid(c, app.uid)
  {
    var c := CacheAfter(EMPTY, events + [OnAdd(app)]);
    CacheAfterWellformed(EMPTY, events + [OnAdd(app)]);
    CacheAfterConcat(EMPTY, events, [OnAdd(app)]);
    OneEvent(CacheAfter(EMPTY, events), OnAdd(app));
    OneEvent(c, OnDelete(app.uid));
    hide Wellformed, CacheAfter, FramesOf, ConfigOf, DropsAfterAdd;
  }

  /** The list is read, the service deleted, and the list arrives: the page shows the service again. */
  lemma LateListRestoresDeleted(events: seq<Event>, app: App, listing: seq<ServiceInfo>, pins: set<Uid>, p: Principal)
    requires Listed(app) && app.landingPage.value.visibility == "public"
    requires IsGetAll(listing, CacheAfter(EMPTY, events + [OnAdd(app)]).services)
    ensures var c := CacheAfter(EMPTY, events + [OnAdd(app)]);
            var arrived := CacheAfter(c, [OnDelete(app.uid)]);
            && KeepsAccess(c, [OnDelete(app.uid)], p)
            && HasId(ViewAfter(Listing(listing, p, pins), arrived, [], p), app.uid)
            && app.uid !in arrived.services
  {
    var c := CacheAfter(EMPTY, events + [OnAdd(app)]);
    AddedLast(events, app, p);
    assert [OnDelete(app.uid)][..0] == [];
    SnapshotConverged(listing, c, p, pins);
    assert Agrees(Listing(listing, p, pins), c.services, app.uid, p);
    assert Runs.Exec(Apply, c, []) == c;
    hide Wellformed, IsGetAll, NoDuplicates, Listing, CanSee, Shows;
  }

  /** An entry is read for publishing, its service deleted, and the entry published: the page shows it again. */
  lemma LateModifiedRestoresDeleted(events: seq<Event>, app: App, view: seq<Card>, p: Principal)
    requires Listed(app) && app.landingPage.value.visibility == "public"
    requires Converged(view, CacheAfter(CacheAfter(EMPTY, events + [OnAdd(app)]), [OnDelete(app.uid)]).services, p)
    ensures var c := CacheAfter(EMPTY, events + [OnAdd(app)]);
            && !HasId(view, app.uid)
            && HasId(Delivered(view, ServiceEvent(Modified, Some(c.services[app.uid])), p), app.uid)
  {
    var c := CacheAfter(EMPTY, events + [OnAdd(app)]);
    AddedLast(events, app, p);
    var was := c.services[app.uid];
    assert EntryOk(app.uid, was);
    assert Agrees(view, CacheAfter(c, [OnDelete(app.uid)]).services, app.uid, p);
    UpsertExact(view, SocketCard(was));
    hide Wellformed, CacheAfter, NoDuplicates, CanSee, Shows, Upserted;
  }

  // ---- Through the hub ------------------------------------------------------

  /** What an open client received when nothing is pending: its part of `before` and then of `frames`. */
  lemma ReceivedSince(acts: seq<HubProtocol.Action>, client: nat, before: seq<Frame>, frames: seq<Frame>)
    requires var s := Runs.Exec(HubProtocol.Step, HubProtocol.START, acts);
             && client < |s.clients| && s.clients[client].open
             && HubProtocol.Offered(client, s.log, s.sending) == |s.log|
             && s.log == before + frames && s.clients[client].since <= |before|
    ensures var cl := Runs.Exec(HubProtocol.Step, HubProtocol.START, acts).clients[client];
            cl.received == Visible(before[cl.since..], cl.principal, true) + Visible(frames, cl.principal, true)
  {
    hide Runs.Exec, HubProtocol.Step, HubProtocol.Offered, Visible;
    var s := Runs.Exec(HubProtocol.Step, HubProtocol.START, acts);
    var cl := s.clients[client];
    HubProtocol.ReceivedExactly(acts, client);
    assert s.log[cl.since..|s.log|] == before[cl.since..] + frames;
    VisibleConcat(before[cl.since..], frames, cl.principal, true);
  }

  /**
   A client of the hub, in any schedule: if its connection works and no frame is still
   on its way to it, the page that loaded its list after taking the frames of `before`
   and then took all others is right.
   */
  lemma ConnectedPageConverges(acts: seq<HubProtocol.Action>, client: nat, before: seq<Frame>, c: CacheState,
                               early: seq<Event>,
                               late: seq<Event>, listing: seq<ServiceInfo>, pins: set<Uid>)
    requires var s := Runs.Exec(HubProtocol.Step, HubProtocol.START, acts);
             && client < |s.clients| && s.clients[client].open
             && HubProtocol.Offered(client, s.log, s.sending) == |s.log|
             && s.log == before + FramesOf(c, early + late) && s.clients[client].since <= |before|
             && KeepsAccess(c, early + late, s.clients[client].principal)
    requires Wellformed(c) && IsGetAll(listing, CacheAfter(c, early).services)
    ensures var s := Runs.Exec(HubProtocol.Step, HubProtocol.START, acts);
            var p := s.clients[client].principal;
            var taken := |Visible(before[s.clients[client].since..], p, true)|;
            && taken <= |s.clients[client].received|
            && Converged(ReceiveAll(Listing(listing, p, pins), s.clients[client].received[taken..]),
                         CacheAfter(c, early + late).services, p)
  {
    hide Runs.Exec, HubProtocol.Step, Visible, Listing, Converged, KeepsAccess, Wellformed, IsGetAll, FramesOf,
         CacheAfter, ViewAfter, ReceiveAll;
    var s := Runs.Exec(HubProtocol.Step, HubProtocol.START, acts);
    var cl := s.clients[client];
    var frames := FramesOf(c, early + late);
    ReceivedSince(acts, client, before, frames);
    var first := Visible(before[cl.since..], cl.principal, true);
    assert cl.received[|first|..] == Visible(frames, cl.principal, true);
    PageConverges(c, early, late, listing, pins, cl.principal);
    ViewAfterIsReceived(Listing(listing, cl.principal, pins), c, early + late, cl.principal);
  }
}
