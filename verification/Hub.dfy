/** The WebSocket hub: what each kind of frame does to the connected clients. */
module Hubs {
  import opened Wrappers
  import opened Domain
  import opened AccessPolicies

  datatype EventType = Added | Modified | Deleted

  /** A published payload, as far as `dispatch` can tell what it is. */
  datatype Frame =
    | ServiceEvent(kind: EventType, service: Option<ServiceInfo>)
    | NotificationEvent(notification: Option<Notification>)
    | OtherEvent(name: string)
    | Malformed

  /** Whether a client with this principal gets the frame; without a policy every client does. */
  ghost predicate Delivers(f: Frame, p: Principal, policySet: bool)
  {
    match f
    case ServiceEvent(_, service) => service.Some? && (policySet ==> CanSee(service.value, p))
    case NotificationEvent(n) => n.Some? && (policySet ==> CanRead(n.value, p))
    case OtherEvent(_) => true
    case Malformed => false
  }

  /** Without a policy every client gets every frame that says something; with one, what the access decision allows. */
  lemma DeliversExactly(f: Frame, p: Principal, policySet: bool)
    ensures f.ServiceEvent? && f.service.Some? ==>
              (Delivers(f, p, policySet) <==>
                 !policySet || f.service.value.visibility == "public"
                 || (p.authenticated && MemberOf(p.groups, f.service.value.requiredGroups)))
    ensures f.NotificationEvent? && f.notification.Some? ==>
              (Delivers(f, p, policySet) <==>
                 !policySet || f.notification.value.serviceUID == "" || f.notification.value.visibility == "public"
                 || (p.authenticated && MemberOf(p.groups, f.notification.value.requiredGroups)))
    ensures f.OtherEvent? ==> Delivers(f, p, policySet)
    ensures f.Malformed? || f == NotificationEvent(None) || (f.ServiceEvent? && f.service.None?) ==>
              !Delivers(f, p, policySet)
  {
    hide MemberOf;
  }

  /** What `dispatch` drops: bytes it cannot read, or an envelope without its content. */
  predicate Empty(f: Frame)
  {
    f.Malformed? || f == NotificationEvent(None) || (f.ServiceEvent? && f.service.None?)
  }

  /** The frames a client sees of those dispatched. */
  ghost function Visible(frames: seq<Frame>, p: Principal, policySet: bool): seq<Frame>
  {
    if frames == [] then []
    else
      var last := frames[|frames| - 1];
      Visible(frames[..|frames| - 1], p, policySet) + if Delivers(last, p, policySet) then [last] else []
  }

  lemma VisibleOne(frames: seq<Frame>, f: Frame, p: Principal, policySet: bool)
    ensures Visible(frames + [f], p, policySet) == Visible(frames, p, policySet) + if Delivers(f, p, policySet) then [f]
        else []
  {
    assert (frames + [f])[..|frames|] == frames;
    hide Delivers;
  }

  lemma {:induction false} VisibleConcat(first: seq<Frame>, second: seq<Frame>, p: Principal, policySet: bool)
    ensures Visible(first + second, p, policySet) == Visible(first, p, policySet) + Visible(second, p, policySet)
  {
    if second == [] {
      assert first + second == first;
    } else {
      var n := |second| - 1;
      VisibleConcat(first, second[..n], p, policySet);
      VisibleOne(first + second[..n], second[n], p, policySet);
      assert first + second == first + second[..n] + [second[n]];
    }
    hide Delivers;
  }

  /** With the policy set, a service event reaches a client exactly if GET /services lists the service for it. */
  lemma ServiceDecisionIsRest(kind: EventType, s: ServiceInfo, all: seq<ServiceInfo>, claims: Option<Claims>,
                              pins: set<Uid>)
    requires s in all && forall s' :: s' in all && s'.uid == s.uid ==> s' == s
    ensures Delivers(ServiceEvent(kind, Some(s)), PrincipalFromClaims(claims), true) <==>
            exists card :: card in Listing(all, PrincipalFromClaims(claims), pins) && card.id == s.uid
  {
    var p := PrincipalFromClaims(claims);
    hide CanSee, Listing, PrincipalFromClaims;
    ListedCards(all, p, pins, RestCard(s, s.uid in pins));
    forall card | card in Listing(all, p, pins) && card.id == s.uid ensures CanSee(s, p) {
      ListedCards(all, p, pins, card);
    }
  }

  lemma NotificationDecisionIsRest(n: Notification, all: seq<Notification>, claims: Option<Claims>, read: set<string>)
    requires n in all && forall n' :: n' in all && n'.id == n.id ==> n' == n
    ensures Delivers(NotificationEvent(Some(n)), PrincipalFromClaims(claims), true) <==>
            exists item :: item in NotificationListing(all, PrincipalFromClaims(claims), read) && item.id == n.id
  {
    var p := PrincipalFromClaims(claims);
    hide CanRead, NotificationListing, PrincipalFromClaims;
    ListedItems(all, p, read, NotificationItem(n.id, n.id in read));
    forall item | item in NotificationListing(all, p, read) && item.id == n.id ensures CanRead(n, p) {
      ListedItems(all, p, read, item);
    }
  }

  /** One connection. `open` is whether a write to it succeeds; `received` is what it was sent. */
  class Client {
    const principal: Principal
    var open: bool
    var received: seq<Frame>

    constructor (principal: Principal)
      ensures this.principal == principal && open && received == []
    {
      this.principal := principal;
      open, received := true, [];
    }
  }

  class Hub {
    var clients: set<Client>
    var policySet: bool

    constructor ()
      ensures clients == {} && !policySet
    {
      clients, policySet := {}, false;
    }

    method SetAccessPolicy()
      modifies this`policySet
      ensures policySet
    {
      policySet := true;
    }

    method Register(principal: Principal) returns (c: Client)
      modifies this`clients
      ensures fresh(c) && c.principal == principal && c.open && c.received == []
      ensures clients == old(clients) + {c}
    {
      c := new Client(principal);
      clients := clients + {c};
    }

    method Drop(c: Client)
      modifies this`clients, c`open
      ensures clients == old(clients) - {c}
      ensures c.open == (old(c.open) && c !in old(clients))
    {
      if c in clients {
        clients := clients - {c};
        c.open := false;
      }
    }

    method WriteOrDrop(c: Client, raw: Frame)
      modifies this`clients, c
      ensures c.received == old(c.received) + (if old(c.open) then [raw] else [])
      ensures clients == if old(c.open) then old(clients) else old(clients) - {c}
      ensures c.open == old(c.open)
    {
      if !c.open {
        Drop(c);
      } else {
        c.received := c.received + [raw];
      }
    }

    ghost function Held(): map<Client, (bool, seq<Frame>)>
      reads this, clients
    {
      map c | c in clients :: (c.open, c.received)
    }

    /**
     Since the clients were as in `was`: every client the frame is for got it, if its
     connection takes writes, and was dropped otherwise; clients still in `todo` were
     left alone, and nobody else noticed.
     */
    ghost predicate FannedOut(raw: Frame, was: map<Client, (bool, seq<Frame>)>, todo: set<Client>)
      reads this, was.Keys
    {
      && todo <= was.Keys
      && (forall c :: c in was.Keys ==>
            && c.open == was[c].0
            && c.received == was[c].1 + (if c !in todo && c.open && Delivers(raw, c.principal, policySet) then [raw]
                  else []))
      && clients == set c | c in was.Keys && (c !in todo && Delivers(raw, c.principal, policySet) ==> c.open)
    }

    /** One turn of a broadcast loop. */
    method Offer(c: Client, raw: Frame, ok: bool, ghost was: map<Client, (bool, seq<Frame>)>, ghost todo: set<Client>)
      requires c !in todo && FannedOut(raw, was, todo + {c})
      requires ok == Delivers(raw, c.principal, policySet)
      modifies this`clients, c
      ensures FannedOut(raw, was, todo)
    {
      hide Delivers;
      if ok {
        WriteOrDrop(c, raw);
      }
    }

    method ServiceAllowed(service: ServiceInfo, raw: Frame, p: Principal) returns (ok: bool)
      requires raw.ServiceEvent? && raw.service == Some(service)
      ensures ok == Delivers(raw, p, policySet)
    {
      hide CanSee;
      ok := true;
      if policySet {
        ok := CanAccessServiceOf(service, p);
      }
    }

    method NotificationAllowed(n: Notification, raw: Frame, p: Principal) returns (ok: bool)
      requires raw == NotificationEvent(Some(n)) && n.serviceUID != ""
      ensures ok == Delivers(raw, p, policySet)
    {
      hide CanAccess;
      ok := true;
      if policySet {
        ok := CanAccessPolicy(n.visibility, p.authenticated, n.requiredGroups, p.groups);
      }
    }

    method BroadcastService(service: ServiceInfo, raw: Frame)
      requires raw.ServiceEvent? && raw.service == Some(service)
      modifies this`clients, clients
      ensures FannedOut(raw, old(Held()), {})
    {
      assert FannedOut(raw, Held(), clients);
      hide Delivers, FannedOut;
      var todo := clients;
      while todo != {}
        invariant FannedOut(raw, old(Held()), todo) && policySet == old(policySet)
        decreases todo
      {
        var c :| c in todo;
        assert (todo - {c}) + {c} == todo;
        todo := todo - {c};
        var ok := ServiceAllowed(service, raw, c.principal);
        Offer(c, raw, ok, old(Held()), todo);
      }
    }

    method BroadcastNotification(n: Notification, raw: Frame)
      requires raw == NotificationEvent(Some(n))
      modifies this`clients, clients
      ensures FannedOut(raw, old(Held()), {})
    {
      if n.serviceUID == "" {
        BroadcastAll(raw);
      } else {
        BroadcastTagged(n, raw);
      }
    }

    /** A notification about a service goes where that service's own events may go. */
    method BroadcastTagged(n: Notification, raw: Frame)
      requires raw == NotificationEvent(Some(n)) && n.serviceUID != ""
      modifies this`clients, clients
      ensures FannedOut(raw, old(Held()), {})
    {
      assert FannedOut(raw, Held(), clients);
      hide Delivers, FannedOut;
      var todo := clients;
      while todo != {}
        invariant FannedOut(raw, old(Held()), todo) && policySet == old(policySet)
        decreases todo
      {
        var c :| c in todo;
        assert (todo - {c}) + {c} == todo;
        todo := todo - {c};
        var ok := NotificationAllowed(n, raw, c.principal);
        Offer(c, raw, ok, old(Held()), todo);
      }
    }

    method BroadcastAll(raw: Frame)
      requires raw.OtherEvent? || (raw.NotificationEvent? && raw.notification.Some?
                                   && raw.notification.value.serviceUID == "")
      modifies this`clients, clients
      ensures FannedOut(raw, old(Held()), {})
    {
      assert forall c :: c in clients ==> Delivers(raw, c.principal, policySet);
      hide Delivers, FannedOut;
      var todo := clients;
      while todo != {}
        invariant FannedOut(raw, old(Held()), todo) && policySet == old(policySet)
        decreases todo
      {
        var c :| c in todo;
        assert (todo - {c}) + {c} == todo;
        todo := todo - {c};
        Offer(c, raw, true, old(Held()), todo);
      }
    }

    method Dispatch(payload: Frame)
      modifies this`clients, clients
      ensures Empty(payload) ==> clients == old(clients) && forall c :: c in clients ==> unchanged(c)
      ensures !Empty(payload) ==> FannedOut(payload, old(Held()), {})
    {
      hide Delivers;
      match payload
      case Malformed =>
      case ServiceEvent(_, service) =>
        if service.Some? {
          BroadcastService(service.value, payload);
        }
      case NotificationEvent(n) =>
        if n.Some? {
          BroadcastNotification(n.value, payload);
        }
      case OtherEvent(_) => BroadcastAll(payload);
    }
  }

  /** `Handler.CanAccessService`, as the hub calls it. */
  method CanAccessServiceOf(service: ServiceInfo, p: Principal) returns (ok: bool)
    ensures ok <==> CanSee(service, p)
  {
    ok := CanAccessPolicy(service.visibility, p.authenticated, service.requiredGroups, p.groups);
  }
}
