/** The launchpad page: the reducer that applies event-stream frames to its list of cards. */
module LaunchpadViews {
  import opened Wrappers
  import opened Text
  import opened Domain
  import opened AccessPolicies
  import opened Hubs

  /** `mapService`: the card of a service in a frame. */
  function SocketCard(service: ServiceInfo): Card
  {
    Card(service.uid, service.displayName,
         if Lower(service.health.status) == "healthy" then "Healthy"
         else if Lower(service.health.status) == "unhealthy" then "Unhealthy"
         else "Unknown",
         false)
  }

  /** What an event's card says of its service. */
  predicate EventCard(card: Card, service: ServiceInfo)
  {
    && card.id == service.uid && card.name == service.displayName
    && card.status == (if SameWord(service.health.status, "healthy") then "Healthy"
                       else if SameWord(service.health.status, "unhealthy") then "Unhealthy"
                       else "Unknown")
  }

  lemma SocketCardExactly(service: ServiceInfo)
    ensures EventCard(SocketCard(service), service) && !SocketCard(service).pinned
  {
    LowerExactly(service.health.status, "healthy");
    LowerExactly(service.health.status, "unhealthy");
    assert Lower("healthy") == "healthy" && Lower("unhealthy") == "unhealthy";
    hide Lower, SameWord;
  }

  predicate HasId(view: seq<Card>, id: Uid)
  {
    exists card :: card in view && card.id == id
  }

  function Replaced(view: seq<Card>, card: Card): seq<Card>
  {
    seq(|view|, i requires 0 <= i < |view| => if view[i].id == card.id then card.(pinned := view[i].pinned)
        else view[i])
  }

  function Without(view: seq<Card>, id: Uid): seq<Card>
  {
    if view == [] then []
    else (if view[0].id == id then [] else [view[0]]) + Without(view[1..], id)
  }

  function Upserted(view: seq<Card>, card: Card): seq<Card>
  {
    if HasId(view, card.id) then Replaced(view, card) else [card] + view
  }

  /** `onMessage`: frames without a service change nothing. */
  function Receive(view: seq<Card>, f: Frame): seq<Card>
  {
    match f
    case ServiceEvent(kind, Some(service)) =>
      if kind == Deleted then Without(view, service.uid) else Upserted(view, SocketCard(service))
    case _ => view
  }

  function ReceiveAll(view: seq<Card>, frames: seq<Frame>): seq<Card>
  {
    if frames == [] then view else Receive(ReceiveAll(view, frames[..|frames| - 1]), frames[|frames| - 1])
  }

  predicate NoDuplicates(view: seq<Card>)
  {
    forall i, j :: 0 <= i < j < |view| ==> view[i].id != view[j].id
  }

  /** Deleting removes the card with that id and keeps the rest, in order. */
  lemma {:induction false} WithoutExact(view: seq<Card>, id: Uid)
    ensures forall card :: card in Without(view, id) <==> card in view && card.id != id
    ensures NoDuplicates(view) ==> NoDuplicates(Without(view, id))
  {
    if view != [] {
      WithoutExact(view[1..], id);
      assert view == [view[0]] + view[1..];
      assert forall card :: card in view <==> card == view[0] || card in view[1..];
      var rest := Without(view[1..], id);
      assert forall i :: 0 <= i < |rest| ==> rest[i] in view[1..];
    }
  }

  /** An upsert changes the card with that id, if any, but never its pin, and adds it if there is none. */
  lemma UpsertExact(view: seq<Card>, card: Card)
    requires NoDuplicates(view)
    ensures NoDuplicates(Upserted(view, card))
    ensures forall other: Card :: other.id != card.id ==> (other in Upserted(view, card) <==> other in view)
    ensures forall other: Card :: other.id == card.id && other in Upserted(view, card) ==>
        other == card.(pinned := other.pinned)
    ensures HasId(Upserted(view, card), card.id)
    ensures forall before :: before in view && before.id == card.id ==>
        card.(pinned := before.pinned) in Upserted(view, card)
  {
    var after := Upserted(view, card);
    if HasId(view, card.id) {
      assert |after| == |view|;
      forall i | 0 <= i < |view| ensures after[i] == if view[i].id == card.id then card.(pinned := view[i].pinned)
          else view[i] {}
      forall other | other in view && other.id != card.id ensures other in after {
        var i :| 0 <= i < |view| && view[i] == other;
        assert after[i] == other;
      }
      forall before | before in view && before.id == card.id ensures card.(pinned := before.pinned) in after {
        var i :| 0 <= i < |view| && view[i] == before;
        assert after[i] == card.(pinned := before.pinned);
      }
      var before :| before in view && before.id == card.id;
      assert card.(pinned := before.pinned).id == card.id;
    } else {
      assert card in after && after[1..] == view;
      forall other | other in after && other.id == card.id ensures other == card {
        assert other in view ==> HasId(view, card.id);
      }
    }
    hide Upserted, Replaced;
  }

  /**
   After an added or modified frame the page has a card of that service, which says what the frame
   says; a card that was not there before is not pinned.
   */
  lemma ReceivedCard(view: seq<Card>, kind: EventType, service: ServiceInfo)
    requires NoDuplicates(view) && kind != Deleted
    ensures var view' := Receive(view, ServiceEvent(kind, Some(service)));
            && HasId(view', service.uid)
            && (forall card :: card in view' && card.id == service.uid ==>
                  EventCard(card, service) && (!HasId(view, service.uid) ==> !card.pinned))
  {
    var card := SocketCard(service);
    SocketCardExactly(service);
    UpsertExact(view, card);
    if !HasId(view, card.id) {
      assert forall other :: other in Upserted(view, card) <==> other == card || other in view;
    }
    hide SocketCard, EventCard, NoDuplicates, Replaced;
    assert forall other: Card :: EventCard(card, service) && other == card.(pinned := other.pinned) ==>
        EventCard(other, service) by { SameButPinned(card, service); }
  }

  lemma SameButPinned(card: Card, service: ServiceInfo)
    requires EventCard(card, service)
    ensures forall other: Card :: other == card.(pinned := other.pinned) ==> EventCard(other, service)
  {
    hide SameWord;
  }

  /** Cards keep their places: a replaced one its own, and a new one is put in front. */
  lemma UpsertInPlace(view: seq<Card>, card: Card)
    ensures var after := Upserted(view, card);
            if HasId(view, card.id) then |after| == |view| && forall i :: 0 <= i < |view| ==> after[i].id == view[i].id
            else |after| == |view| + 1 && after[0] == card && after[1..] == view
  {
  }

  lemma {:induction false} WithoutInOrder(first: seq<Card>, second: seq<Card>, id: Uid)
    ensures Without(first + second, id) == Without(first, id) + Without(second, id)
  {
    if first == [] {
      assert first + second == second;
    } else {
      assert (first + second)[1..] == first[1..] + second;
      WithoutInOrder(first[1..], second, id);
    }
  }

  /** No frame changes the pin of a card that survives it, nor makes two cards of one service. */
  lemma PinsSurvive(view: seq<Card>, f: Frame, before: Card, after: Card)
    requires NoDuplicates(view)
    requires before in view && after in Receive(view, f) && before.id == after.id
    ensures after.pinned == before.pinned
    ensures NoDuplicates(Receive(view, f))
  {
    hide NoDuplicates, SocketCard;
    match f
    case ServiceEvent(kind, Some(service)) =>
      WithoutExact(view, service.uid);
      UpsertExact(view, SocketCard(service));
      UniqueById(view, before, after);
      UniqueById(Receive(view, f), after, SocketCard(service).(pinned := before.pinned));
      hide Upserted;
    case _ => UniqueById(view, before, after);
  }

  lemma UniqueById(view: seq<Card>, a: Card, b: Card)
    ensures NoDuplicates(view) && a in view && b in view && a.id == b.id ==> a == b
  {
  }
}
