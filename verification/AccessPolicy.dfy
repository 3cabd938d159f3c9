/** Who may see a service: the one decision behind the REST lists and the event stream. */
module AccessPolicies {
  import opened Wrappers
  import opened Domain

  /** The identity the hub keeps for a client. */
  datatype Principal = Principal(subject: string, groups: seq<string>, authenticated: bool)

  datatype Claims = Claims(subject: string, preferredUsername: string, groups: seq<string>, expiresAt: int)

  const ANONYMOUS := Principal("", [], false)

  /** A caller without a valid token is nobody; with one it is the token's subject in the token's groups. */
  function PrincipalFromClaims(claims: Option<Claims>): (p: Principal)
    ensures p.authenticated <==> claims.Some?
    ensures claims.Some? ==> p.subject == claims.value.subject && p.groups == claims.value.groups
    ensures claims.None? ==> p.groups == []
  {
    if claims.None? then ANONYMOUS else Principal(claims.value.subject, claims.value.groups, true)
  }

  function TrimSlash(s: string): string
  {
    if s != "" && s[0] == '/' then s[1..] else s
  }

  predicate GroupMatches(claimGroup: string, want: string)
  {
    TrimSlash(claimGroup) == TrimSlash(want)
  }

  /** Two names of one group: equal, or one of them the other with a slash before it. */
  predicate SameGroup(a: string, b: string)
  {
    a == b || (a == "/" + b && !("/" <= b)) || (b == "/" + a && !("/" <= a))
  }

  lemma GroupMatchesExactly(claimGroup: string, want: string)
    ensures GroupMatches(claimGroup, want) <==> SameGroup(claimGroup, want)
  {
    assert ("/" + want)[1..] == want && ("/" + claimGroup)[1..] == claimGroup;
    assert claimGroup != "" && claimGroup[0] == '/' ==> claimGroup == "/" + claimGroup[1..];
    assert want != "" && want[0] == '/' ==> want == "/" + want[1..];
  }

  ghost predicate MemberOf(userGroups: seq<string>, requiredGroups: seq<string>)
  {
    requiredGroups == [] || exists r, u :: r in requiredGroups && u in userGroups && SameGroup(u, r)
  }

  /**
   Public to everyone; everything else, unknown visibilities included, to the signed-in members of a
   required group.
   */
  ghost predicate CanAccess(visibility: string, authenticated: bool, requiredGroups: seq<string>,
                            userGroups: seq<string>)
  {
    visibility == "public" || (authenticated && MemberOf(userGroups, requiredGroups))
  }

  ghost predicate CanSee(service: ServiceInfo, p: Principal)
  {
    CanAccess(service.visibility, p.authenticated, service.requiredGroups, p.groups)
  }

  method HasRequiredGroups(userGroups: seq<string>, requiredGroups: seq<string>) returns (ok: bool)
    ensures ok <==> MemberOf(userGroups, requiredGroups)
  {
    if |requiredGroups| == 0 {
      return true;
    }
    for i := 0 to |requiredGroups|
      invariant forall r, u :: r in requiredGroups[..i] && u in userGroups ==> !SameGroup(u, r)
    {
      for j := 0 to |userGroups|
        invariant forall u :: u in userGroups[..j] ==> !SameGroup(u, requiredGroups[i])
      {
        GroupMatchesExactly(userGroups[j], requiredGroups[i]);
        if GroupMatches(userGroups[j], requiredGroups[i]) {
          return true;
        }
      }
    }
    return false;
  }

  method CanAccessPolicy(visibility: string, authenticated: bool, requiredGroups: seq<string>, userGroups: seq<string>)
    returns (ok: bool)
    ensures ok <==> CanAccess(visibility, authenticated, requiredGroups, userGroups)
    ensures ok <==> visibility == "public" || (authenticated && MemberOf(userGroups, requiredGroups))
  {
    match visibility
    case "public" => ok := true;
    case "private" =>
      if !authenticated {
        return false;
      }
      ok := HasRequiredGroups(userGroups, requiredGroups);
    case _ =>
      ok := HasRequiredGroups(userGroups, requiredGroups);
      ok := authenticated && ok;
  }

  lemma SameGroupTransitive(a: string, b: string, c: string)
    requires SameGroup(a, b) && SameGroup(b, c)
    ensures SameGroup(a, c) && SameGroup(c, a)
  {
    GroupMatchesExactly(a, b);
    GroupMatchesExactly(b, c);
    GroupMatchesExactly(a, c);
    GroupMatchesExactly(c, a);
    hide SameGroup, TrimSlash;
  }

  /** Full group paths and short names grant the same access, on either side. */
  lemma SlashesDoNotMatter(userGroups: seq<string>, requiredGroups: seq<string>, users: seq<string>,
                           required: seq<string>)
    requires |users| == |userGroups| && forall i :: 0 <= i < |users| ==> SameGroup(users[i], userGroups[i])
    requires |required| == |requiredGroups|
    requires forall i :: 0 <= i < |required| ==> SameGroup(required[i], requiredGroups[i])
    ensures MemberOf(users, required) <==> MemberOf(userGroups, requiredGroups)
  {
    forall i | 0 <= i < |users| ensures SameGroup(userGroups[i], users[i]) {}
    forall i | 0 <= i < |required| ensures SameGroup(requiredGroups[i], required[i]) {}
    hide SameGroup;
    if MemberOf(users, required) && required != [] {
      OtherForms(users, required, userGroups, requiredGroups);
    }
    if MemberOf(userGroups, requiredGroups) && required != [] {
      OtherForms(userGroups, requiredGroups, users, required);
    }
  }

  lemma OtherForms(userGroups: seq<string>, requiredGroups: seq<string>, users: seq<string>, required: seq<string>)
    requires MemberOf(userGroups, requiredGroups) && requiredGroups != []
    requires |users| == |userGroups| && forall i :: 0 <= i < |users| ==> SameGroup(users[i], userGroups[i])
    requires |required| == |requiredGroups|
    requires forall i :: 0 <= i < |required| ==> SameGroup(required[i], requiredGroups[i])
    ensures MemberOf(users, required)
  {
    var r, u :| r in requiredGroups && u in userGroups && SameGroup(u, r);
    var i :| 0 <= i < |requiredGroups| && requiredGroups[i] == r;
    var j :| 0 <= j < |userGroups| && userGroups[j] == u;
    SameGroupTransitive(users[j], u, r);
    assert SameGroup(r, required[i]);
    SameGroupTransitive(users[j], r, required[i]);
    assert required[i] in required && users[j] in users;
    hide SameGroup;
  }

  /** Among names without a leading slash, membership is having a required name. */
  lemma PlainNamesExactly(userGroups: seq<string>, requiredGroups: seq<string>)
    requires forall g :: g in userGroups || g in requiredGroups ==> !("/" <= g)
    ensures MemberOf(userGroups, requiredGroups) <==>
            requiredGroups == [] || exists g :: g in requiredGroups && g in userGroups
  {
    forall u, r | u in userGroups && r in requiredGroups ensures SameGroup(u, r) <==> u == r {
      assert "/" <= "/" + r && "/" <= "/" + u;
    }
    hide SameGroup;
  }

  // ---- The REST lists -------------------------------------------------------

  datatype Notification = Notification(id: string, serviceUID: Uid, visibility: string, requiredGroups: seq<string>)

  datatype Card = Card(id: Uid, name: string, status: string, pinned: bool)

  datatype NotificationItem = NotificationItem(id: string, read: bool)

  /** `toServiceView`, as far as identity, name, status and pin go. */
  function RestCard(service: ServiceInfo, pinned: bool): Card
  {
    var name := if service.displayName == "" then service.name else service.displayName;
    Card(service.uid, name, service.health.status, pinned)
  }

  ghost predicate CanRead(n: Notification, p: Principal)
  {
    n.serviceUID == "" || CanAccess(n.visibility, p.authenticated, n.requiredGroups, p.groups)
  }

  /** The visible services among `services`, in order. */
  ghost function Listing(services: seq<ServiceInfo>, p: Principal, pins: set<Uid>): (cards: seq<Card>)
  {
    if services == [] then []
    else
      var last := services[|services| - 1];
      Listing(services[..|services| - 1], p, pins) + if CanSee(last, p) then [RestCard(last, last.uid in pins)] else []
  }

  ghost function NotificationListing(ns: seq<Notification>, p: Principal, read: set<string>): seq<NotificationItem>
  {
    if ns == [] then []
    else
      var last := ns[|ns| - 1];
      NotificationListing(ns[..|ns| - 1], p, read)
      + if CanRead(last, p) then [NotificationItem(last.id, last.id in read)] else []
  }

  /** `card` is the card of `service` for a caller with these pins. */
  predicate IsCardOf(card: Card, service: ServiceInfo, pins: set<Uid>)
  {
    && card.id == service.uid
    && (service.displayName != "" ==> card.name == service.displayName)
    && (service.displayName == "" ==> card.name == service.name)
    && card.status == service.health.status
    && (card.pinned <==> service.uid in pins)
  }

  /** A service is listed exactly if it is public or the caller is signed in and in a required group. */
  lemma ListingExact(services: seq<ServiceInfo>, p: Principal, pins: set<Uid>, card: Card)
    ensures card in Listing(services, p, pins) <==>
            exists s :: s in services && IsCardOf(card, s, pins)
                && (s.visibility == "public" || (p.authenticated && MemberOf(p.groups, s.requiredGroups)))
  {
    ListedCards(services, p, pins, card);
    assert forall s: ServiceInfo :: IsCardOf(card, s, pins) <==> card == RestCard(s, s.uid in pins);
    hide MemberOf, Listing, IsCardOf, RestCard;
  }

  /** The list keeps the order of the services. */
  lemma {:induction false} ListingInOrder(first: seq<ServiceInfo>, second: seq<ServiceInfo>, p: Principal,
                                          pins: set<Uid>)
    ensures Listing(first + second, p, pins) == Listing(first, p, pins) + Listing(second, p, pins)
  {
    if second == [] {
      assert first + second == first;
    } else {
      var n := |second| - 1;
      assert (first + second)[..|first + second| - 1] == first + second[..n];
      ListingInOrder(first, second[..n], p, pins);
    }
    hide CanSee, RestCard;
  }

  lemma {:induction false} ListedCards(services: seq<ServiceInfo>, p: Principal, pins: set<Uid>, card: Card)
    ensures card in Listing(services, p, pins) <==>
            exists s :: s in services && CanSee(s, p) && card == RestCard(s, s.uid in pins)
  {
    if services != [] {
      var rest, last := services[..|services| - 1], services[|services| - 1];
      ListedCards(rest, p, pins, card);
      assert services == rest + [last];
      assert forall s :: s in services <==> s in rest || s == last;
      hide CanSee, RestCard;
    }
  }

  /** A notification is listed exactly if it is about no service or its caller could see a service of that policy. */
  lemma NotificationListingExact(ns: seq<Notification>, p: Principal, read: set<string>, item: NotificationItem)
    ensures item in NotificationListing(ns, p, read) <==>
            exists n :: n in ns && item.id == n.id && (item.read <==> n.id in read)
                && (n.serviceUID == "" || n.visibility == "public"
                    || (p.authenticated && MemberOf(p.groups, n.requiredGroups)))
  {
    ListedItems(ns, p, read, item);
    assert forall n: Notification :: item == NotificationItem(n.id, n.id in read) <==>
        item.id == n.id && (item.read <==> n.id in read);
    hide MemberOf, NotificationListing;
  }

  lemma {:induction false} NotificationsInOrder(first: seq<Notification>, second: seq<Notification>, p: Principal,
                                                read: set<string>)
    ensures NotificationListing(first + second, p, read)
            == NotificationListing(first, p, read) + NotificationListing(second, p, read)
  {
    if second == [] {
      assert first + second == first;
    } else {
      var n := |second| - 1;
      assert (first + second)[..|first + second| - 1] == first + second[..n];
      NotificationsInOrder(first, second[..n], p, read);
    }
    hide CanRead;
  }

  lemma {:induction false} ListedItems(ns: seq<Notification>, p: Principal, read: set<string>, item: NotificationItem)
    ensures item in NotificationListing(ns, p, read) <==>
            exists n :: n in ns && CanRead(n, p) && item == NotificationItem(n.id, n.id in read)
  {
    if ns != [] {
      var rest, last := ns[..|ns| - 1], ns[|ns| - 1];
      ListedItems(rest, p, read, item);
      assert ns == rest + [last];
      assert forall n :: n in ns <==> n in rest || n == last;
      hide CanRead;
    }
  }

  method CanAccessService(service: ServiceInfo, authenticated: bool, claims: Option<Claims>) returns (ok: bool)
    ensures ok <==> CanAccess(service.visibility, authenticated, service.requiredGroups,
                              if claims.Some? then claims.value.groups else [])
  {
    var groups := [];
    if claims.Some? {
      groups := claims.value.groups;
    }
    ok := CanAccessPolicy(service.visibility, authenticated, service.requiredGroups, groups);
  }

  /** `claims` are those of a valid token, if the request carried one. */
  method GetServices(all: seq<ServiceInfo>, claims: Option<Claims>, pins: set<Uid>) returns (views: seq<Card>)
    ensures views == Listing(all, PrincipalFromClaims(claims), pins)
  {
    hide CanAccess, MemberOf;
    views := [];
    for i := 0 to |all|
      invariant views == Listing(all[..i], PrincipalFromClaims(claims), pins)
    {
      assert all[..i + 1][..i] == all[..i];
      var ok := CanAccessService(all[i], claims.Some?, claims);
      if !ok {
        continue;
      }
      views := views + [RestCard(all[i], all[i].uid in pins)];
    }
    assert all[..|all|] == all;
  }

  method GetNotifications(notifs: seq<Notification>, claims: Option<Claims>, readSet: set<string>)
    returns (items: seq<NotificationItem>)
    ensures items == NotificationListing(notifs, PrincipalFromClaims(claims), readSet)
  {
    hide CanAccess, MemberOf;
    items := [];
    for i := 0 to |notifs|
      invariant items == NotificationListing(notifs[..i], PrincipalFromClaims(claims), readSet)
    {
      assert notifs[..i + 1][..i] == notifs[..i];
      var n := notifs[i];
      if n.serviceUID != "" {
        var groups := [];
        if claims.Some? {
          groups := claims.value.groups;
        }
        var ok := CanAccessPolicy(n.visibility, claims.Some?, n.requiredGroups, groups);
        if !ok {
          continue;
        }
      }
      items := items + [NotificationItem(n.id, n.id in readSet)];
    }
    assert notifs[..|notifs|] == notifs;
  }
}
