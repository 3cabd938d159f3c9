/** Single-use WebSocket tickets, and the sessions opened with them. */
module Tickets {
  import opened Wrappers
  import opened AccessPolicies
  import Runs

  type Time = int  // nanoseconds

  const TICKET_TTL: Time := 30_000_000_000
  const KEY_PREFIX := "wsticket:"

  /** `expiresAt` is None when the token carried no expiry. */
  datatype TicketClaims = TicketClaims(subject: string, preferredUsername: string, groups: seq<string>,
                                       expiresAt: Option<Time>)

  /** A Redis string with its expiry: from `until` on the key does not exist. */
  datatype Stored = Stored(claims: TicketClaims, until: Time)

  type Db = map<string, Stored>

  datatype Error = UnknownTicket | ExpiredCredentials

  function SetWithTTL(db: Db, ticket: string, tc: TicketClaims, now: Time): Db
  {
    db[KEY_PREFIX + ticket := Stored(tc, now + TICKET_TTL)]
  }

  /** GETDEL of a ticket's key. */
  function GetDel(db: Db, ticket: string, now: Time): (Db, Result<TicketClaims, Error>)
  {
    var key := KEY_PREFIX + ticket;
    (db - {key}, if key in db && now < db[key].until then Ok(db[key].claims) else Err(UnknownTicket))
  }

  /** `handleWS` after redeeming: a missing or past expiry is refused. */
  predicate Unexpired(tc: TicketClaims, now: Time)
  {
    tc.expiresAt.Some? && tc.expiresAt.value > now
  }

  /** The timer `ServeWS` installs: none if the end is already past when it looks. */
  function SessionTimer(end: Option<Time>, now: Time): Option<Time>
  {
    if end.Some? && end.value - now > 0 then Some(now + (end.value - now)) else None
  }

  class TicketStore {
    var db: Db

    constructor ()
      ensures db == map[]
    {
      db := map[];
    }

    /** `ticket` is the random id just drawn. */
    method Issue(ticket: string, tc: TicketClaims, now: Time)
      modifies this
      ensures db == SetWithTTL(old(db), ticket, tc, now)
    {
      db := db[KEY_PREFIX + ticket := Stored(tc, now + TICKET_TTL)];
    }

    method Redeem(ticket: string, now: Time) returns (result: Result<TicketClaims, Error>)
      modifies this
      ensures (db, result) == GetDel(old(db), ticket, now)
    {
      var key := KEY_PREFIX + ticket;
      if key !in db || now >= db[key].until {
        db := db - {key};
        return Err(UnknownTicket);
      }
      result := Ok(db[key].claims);
      db := db - {key};
    }

    /** The ticket branch of `handleWS`, up to the upgrade. */
    method HandleTicket(ticket: string, now: Time) returns (result: Result<(Principal, Option<Time>), Error>)
      modifies this
      ensures var (db', redeemed) := GetDel(old(db), ticket, now);
              && db == db'
              && (result.Ok? <==>
                    redeemed.Ok? && redeemed.value.expiresAt.Some? && now < redeemed.value.expiresAt.value)
              && (result.Ok? ==>
                    && result.value.0 == Principal(redeemed.value.subject, redeemed.value.groups, true)
                    && result.value.1 == redeemed.value.expiresAt)
              && (result.Err? ==> result.error == if redeemed.Ok? then ExpiredCredentials else UnknownTicket)
    {
      var redeemed := Redeem(ticket, now);
      if redeemed.Err? {
        return Err(UnknownTicket);
      }
      var tc := redeemed.value;
      if tc.expiresAt.None? || !(tc.expiresAt.value > now) {
        return Err(ExpiredCredentials);
      }
      return Ok((Principal(tc.subject, tc.groups, true), tc.expiresAt));
    }
  }

  // ---- Every schedule of issues, redeems, upgrades and clock steps ----------

  datatype Issued = Issued(claims: TicketClaims, at: Time)
  datatype Redemption = Redemption(ticket: string, claims: TicketClaims, at: Time)

  /** A client admitted by ticket; `servedAt` is when `ServeWS` looked at the clock. */
  datatype Session = Session(redemption: nat, end: Time, servedAt: Option<Time>, timer: Option<Time>, open: bool)

  datatype State = State(
    now: Time,
    db: Db,
    sessions: seq<Session>,
    // History, read by no step but for the freshness of tickets.
    issued: map<string, Issued>,
    redemptions: seq<Redemption>)

  datatype Action =
    | Tick(d: nat)
    | Issue(ticket: string, tc: TicketClaims)
    | Redeem(ticket: string)
    | Serve(i: nat)
    | Disconnect(i: nat)

  const START := State(0, map[], [], map[], [])

  /** A timer closes its session as soon as the clock reaches it. */
  function Fire(session: Session, now: Time): Session
  {
    if session.timer.Some? && session.timer.value <= now then session.(open := false) else session
  }

  /** 128 random bits never give the same ticket twice. */
  function Step(s: State, a: Action): State
  {
    match a
    case Tick(d) =>
      s.(now := s.now + d, sessions := seq(|s.sessions|, i requires 0 <= i < |s.sessions| =>
          Fire(s.sessions[i], s.now + d)))
    case Issue(ticket, tc) =>
      if ticket in s.issued then s
      else s.(db := SetWithTTL(s.db, ticket, tc, s.now), issued := s.issued[ticket := Issued(tc, s.now)])
    case Redeem(ticket) =>
      var (db, result) := GetDel(s.db, ticket, s.now);
      if result.Err? then s.(db := db)
      else
        var r := Redemption(ticket, result.value, s.now);
        var admitted := if Unexpired(result.value, s.now) then
            [Session(|s.redemptions|, result.value.expiresAt.value, None, None, false)] else [];
        s.(db := db, redemptions := s.redemptions + [r], sessions := s.sessions + admitted)
    case Serve(i) =>
      if i >= |s.sessions| || s.sessions[i].servedAt.Some? then s
      else
        var session := s.sessions[i];
        s.(sessions := s.sessions[i := session.(servedAt := Some(s.now),
                                                timer := SessionTimer(Some(session.end), s.now), open := true)])
    case Disconnect(i) =>
      if i >= |s.sessions| then s else s.(sessions := s.sessions[i := s.sessions[i].(open := false)])
  }

  predicate RedemptionOk(r: Redemption, db: Db, issued: map<string, Issued>, now: Time)
  {
    && KEY_PREFIX + r.ticket !in db
    && r.ticket in issued && issued[r.ticket].claims == r.claims
    && issued[r.ticket].at <= r.at < issued[r.ticket].at + TICKET_TTL && r.at <= now
  }

  /** A stored ticket was issued with those claims and has the rest of its lifetime left. */
  predicate StoredOk(ticket: string, db: Db, issued: map<string, Issued>, now: Time)
  {
    KEY_PREFIX + ticket in db ==>
      && ticket in issued
      && db[KEY_PREFIX + ticket] == Stored(issued[ticket].claims, issued[ticket].at + TICKET_TTL)
      && issued[ticket].at <= now
  }

  ghost predicate IsRedeemed(redemptions: seq<Redemption>, ticket: string)
  {
    exists i :: 0 <= i < |redemptions| && redemptions[i].ticket == ticket
  }

  /** An issued ticket stays stored until it is redeemed or its lifetime is over. */
  ghost predicate StaysStored(ticket: string, db: Db, issued: map<string, Issued>, redemptions: seq<Redemption>,
                              now: Time)
  {
    ticket in issued && now < issued[ticket].at + TICKET_TTL && !IsRedeemed(redemptions, ticket) ==>
        KEY_PREFIX + ticket in db
  }

  ghost predicate LiveOk(s: State)
  {
    forall ticket :: StaysStored(ticket, s.db, s.issued, s.redemptions, s.now)
  }

  predicate SessionOk(session: Session, redemptions: seq<Redemption>, now: Time)
  {
    && session.redemption < |redemptions|
    && redemptions[session.redemption].claims.expiresAt == Some(session.end)
    && redemptions[session.redemption].at < session.end
    && (session.servedAt.None? ==> !session.open && session.timer.None?)
    && (session.servedAt.Some? ==>
          && session.timer == (if session.servedAt.value < session.end then Some(session.end) else None)
          && (session.open && session.timer.Some? ==> now < session.end))
  }

  ghost predicate TicketsOk(s: State)
  {
    && (forall ticket :: StoredOk(ticket, s.db, s.issued, s.now))
    && (forall i :: 0 <= i < |s.redemptions| ==> RedemptionOk(s.redemptions[i], s.db, s.issued, s.now))
    && (forall i, j :: 0 <= i < j < |s.redemptions| ==> s.redemptions[i].ticket != s.redemptions[j].ticket)
  }

  ghost predicate SessionsOk(s: State)
  {
    && (forall i :: 0 <= i < |s.sessions| ==> SessionOk(s.sessions[i], s.redemptions, s.now))
    && (forall i, j :: 0 <= i < j < |s.sessions| ==> s.sessions[i].redemption != s.sessions[j].redemption)
  }

  ghost predicate Inv(s: State)
  {
    TicketsOk(s) && LiveOk(s) && SessionsOk(s)
  }

  lemma SameKey(a: string, b: string)
    ensures KEY_PREFIX + a == KEY_PREFIX + b ==> a == b
  {
    assert (KEY_PREFIX + a)[|KEY_PREFIX|..] == a && (KEY_PREFIX + b)[|KEY_PREFIX|..] == b;
  }

  lemma IssueKeepsTickets(s: State, ticket: string, tc: TicketClaims)
    requires TicketsOk(s)
    ensures TicketsOk(Step(s, Issue(ticket, tc)))
  {
    var s' := Step(s, Issue(ticket, tc));
    forall other ensures StoredOk(other, s'.db, s'.issued, s'.now) {
      SameKey(ticket, other);
      assert StoredOk(other, s.db, s.issued, s.now);
    }
    forall i | 0 <= i < |s'.redemptions| ensures RedemptionOk(s'.redemptions[i], s'.db, s'.issued, s'.now) {
      SameKey(ticket, s.redemptions[i].ticket);
      assert RedemptionOk(s.redemptions[i], s.db, s.issued, s.now);
    }
    hide StoredOk, RedemptionOk;
  }

  lemma RedeemKeepsTickets(s: State, ticket: string)
    requires TicketsOk(s)
    ensures TicketsOk(Step(s, Redeem(ticket)))
  {
    var s' := Step(s, Redeem(ticket));
    assert StoredOk(ticket, s.db, s.issued, s.now);
    forall other ensures StoredOk(other, s'.db, s'.issued, s'.now) {
      assert StoredOk(other, s.db, s.issued, s.now);
    }
    forall i | 0 <= i < |s'.redemptions| ensures RedemptionOk(s'.redemptions[i], s'.db, s'.issued, s'.now) {
      assert i < |s.redemptions| ==> RedemptionOk(s.redemptions[i], s.db, s.issued, s.now);
    }
    forall i | 0 <= i < |s.redemptions| && GetDel(s.db, ticket, s.now).1.Ok? ensures s.redemptions[i].ticket != ticket {
      assert RedemptionOk(s.redemptions[i], s.db, s.issued, s.now);
    }
    hide StoredOk, RedemptionOk;
  }

  lemma TickKeepsTickets(s: State, now: Time, sessions: seq<Session>)
    requires TicketsOk(s) && now >= s.now
    ensures TicketsOk(s.(now := now, sessions := sessions))
  {
    forall ticket ensures StoredOk(ticket, s.db, s.issued, now) {
      assert StoredOk(ticket, s.db, s.issued, s.now);
    }
    forall i | 0 <= i < |s.redemptions| ensures RedemptionOk(s.redemptions[i], s.db, s.issued, now) {
      assert RedemptionOk(s.redemptions[i], s.db, s.issued, s.now);
    }
    hide StoredOk, RedemptionOk;
  }

  lemma StepKeepsTickets(s: State, a: Action)
    requires TicketsOk(s)
    ensures TicketsOk(Step(s, a))
  {
    hide TicketsOk, GetDel, SetWithTTL, SessionTimer, Unexpired;
    match a
    case Issue(ticket, tc) => IssueKeepsTickets(s, ticket, tc); hide Step;
    case Redeem(ticket) => RedeemKeepsTickets(s, ticket); hide Step;
    case _ => TickKeepsTickets(s, Step(s, a).now, Step(s, a).sessions);
  }

  lemma StepKeepsLive(s: State, a: Action)
    requires TicketsOk(s) && LiveOk(s)
    ensures LiveOk(Step(s, a))
  {
    var s' := Step(s, a);
    forall ticket ensures StaysStored(ticket, s'.db, s'.issued, s'.redemptions, s'.now) {
      StepKeepsStored(s, a, ticket);
    }
    hide Step, StaysStored;
  }

  lemma StepKeepsStored(s: State, a: Action, ticket: string)
    requires TicketsOk(s) && LiveOk(s)
    ensures var s' := Step(s, a); StaysStored(ticket, s'.db, s'.issued, s'.redemptions, s'.now)
  {
    assert StaysStored(ticket, s.db, s.issued, s.redemptions, s.now);
    match a
    case Redeem(redeemed) =>
      SameKey(redeemed, ticket);
      assert StoredOk(ticket, s.db, s.issued, s.now);
      var rs := Step(s, a).redemptions;
      if IsRedeemed(s.redemptions, ticket) {
        var i :| 0 <= i < |s.redemptions| && s.redemptions[i].ticket == ticket;
        assert rs[i] == s.redemptions[i];
      }
      if |rs| > |s.redemptions| && redeemed == ticket {
        assert rs[|s.redemptions|].ticket == ticket;
      }
      hide Unexpired;
    case _ => hide GetDel, Unexpired, SessionTimer;
    hide TicketsOk, LiveOk, StoredOk;
  }

  lemma StepKeepsSessions(s: State, a: Action)
    requires SessionsOk(s)
    ensures SessionsOk(Step(s, a))
  {
    var s' := Step(s, a);
    forall i | 0 <= i < |s'.sessions| ensures SessionOk(s'.sessions[i], s'.redemptions, s'.now) {
      assert i < |s.sessions| ==> SessionOk(s.sessions[i], s.redemptions, s.now);
    }
    forall i, j | 0 <= i < j < |s'.sessions| ensures s'.sessions[i].redemption != s'.sessions[j].redemption {
      assert SessionOk(s.sessions[i], s.redemptions, s.now);
      hide SetWithTTL, Unexpired, SessionTimer;
    }
    hide SessionOk, Step;
  }

  lemma RunInv(acts: seq<Action>)
    ensures Inv(Runs.Exec(Step, START, acts))
  {
    forall ticket ensures StoredOk(ticket, START.db, START.issued, START.now) {}
    assert Inv(START);
    forall s, a | Inv(s) ensures Inv(Step(s, a)) {
      StepKeepsTickets(s, a);
      StepKeepsLive(s, a);
      StepKeepsSessions(s, a);
      hide TicketsOk, LiveOk, SessionsOk, Step;
    }
    hide Step, Inv, Runs.Exec;
    Runs.Invariance(Step, Inv, START, acts);
  }

  /** A ticket is redeemed at most once, within its lifetime, for the claims it was issued with. */
  lemma RedeemedOnceInTime(acts: seq<Action>, i: nat, j: nat)
    ensures var s := Runs.Exec(Step, START, acts);
            && (i < |s.redemptions| ==>
                  var r := s.redemptions[i];
                  && r.ticket in s.issued && r.claims == s.issued[r.ticket].claims
                  && s.issued[r.ticket].at <= r.at < s.issued[r.ticket].at + 30 * 1_000_000_000)
            && (i < j < |s.redemptions| ==> s.redemptions[i].ticket != s.redemptions[j].ticket)
  {
    RunInv(acts);
    var s := Runs.Exec(Step, START, acts);
    assert i < |s.redemptions| ==> RedemptionOk(s.redemptions[i], s.db, s.issued, s.now);
    hide Runs.Exec, Step;
  }

  /**
   Redeeming gives an issued ticket's claims exactly if its lifetime is not over and it has not been
   redeemed before.
   */
  lemma RedeemableExactly(acts: seq<Action>, ticket: string)
    ensures var s := Runs.Exec(Step, START, acts);
            var redeemable := ticket in s.issued && s.now < s.issued[ticket].at + 30 * 1_000_000_000
                && !IsRedeemed(s.redemptions, ticket);
            GetDel(s.db, ticket, s.now).1 == if redeemable then Ok(s.issued[ticket].claims) else Err(UnknownTicket)
  {
    RunInv(acts);
    var s := Runs.Exec(Step, START, acts);
    assert StoredOk(ticket, s.db, s.issued, s.now) && StaysStored(ticket, s.db, s.issued, s.redemptions, s.now);
    forall k | 0 <= k < |s.redemptions| ensures KEY_PREFIX + s.redemptions[k].ticket !in s.db {
      assert RedemptionOk(s.redemptions[k], s.db, s.issued, s.now);
    }
    hide Runs.Exec, Step, SessionsOk;
  }

  /**
   A ticket opens at most one session, one of its own subject's token. The session has
   its close scheduled for the token's expiry, and does not outlive it, exactly if
   `ServeWS` looked at the clock before that; it did if it used the reading of the check.
   */
  lemma SessionsEndWithTheirToken(acts: seq<Action>, i: nat, j: nat)
    ensures var s := Runs.Exec(Step, START, acts);
            && (i < |s.sessions| ==>
                  var session := s.sessions[i];
                  && session.redemption < |s.redemptions|
                  && s.redemptions[session.redemption].claims.expiresAt == Some(session.end)
                  && (session.servedAt == Some(s.redemptions[session.redemption].at) ==>
                        session.timer == Some(session.end))
                  && (session.servedAt.Some? ==>
                        && (session.timer == Some(session.end) <==> session.servedAt.value < session.end)
                        && (session.open && session.servedAt.value < session.end ==> s.now < session.end)))
            && (i < j < |s.sessions| ==> s.sessions[i].redemption != s.sessions[j].redemption)
  {
    RunInv(acts);
    var s := Runs.Exec(Step, START, acts);
    assert i < |s.sessions| ==> SessionOk(s.sessions[i], s.redemptions, s.now);
    hide Runs.Exec, Step, TicketsOk;
  }

  /** The clock passes the token's expiry between the check and `ServeWS`. */
  function ServedLate(ticket: string, tc: TicketClaims, wait: nat, later: nat): seq<Action>
  {
    [Issue(ticket, tc), Redeem(ticket), Tick(wait), Serve(0), Tick(later)]
  }

  /** Then the session has no timer and stays open past the expiry, for any time after. */
  lemma ServedLateStaysOpen(ticket: string, tc: TicketClaims, wait: nat, later: nat)
    requires tc.expiresAt.Some? && 0 < tc.expiresAt.value <= wait
    ensures var s := Runs.Exec(Step, START, ServedLate(ticket, tc, wait, later));
            && s.now == wait + later >= tc.expiresAt.value
            && |s.sessions| == 1 && |s.redemptions| == 1 && s.redemptions[0].claims == tc
            && s.sessions[0] == Session(0, tc.expiresAt.value, Some(wait), None, true)
  {
    var a, b, c, d, e := Issue(ticket, tc), Redeem(ticket), Tick(wait), Serve(0), Tick(later);
    ExecFive(START, a, b, c, d, e);
    hide Runs.Exec;
    var s2 := Step(Step(START, a), b);
    var end := tc.expiresAt.value;
    assert s2.sessions == [Session(0, end, None, None, false)] && s2.redemptions == [Redemption(ticket, tc, 0)];
    assert s2.now == 0;
    var s4 := Step(Step(s2, c), d);
    assert s4.sessions == [Session(0, end, Some(wait), None, true)];
    hide GetDel, SetWithTTL, Unexpired;
  }

  lemma ExecFive(s: State, a: Action, b: Action, c: Action, d: Action, e: Action)
    ensures Runs.Exec(Step, s, [a, b, c, d, e]) == Step(Step(Step(Step(Step(s, a), b), c), d), e)
  {
    hide Step;
    assert [a, b, c, d, e][..4] == [a, b, c, d] && [a, b, c, d][..3] == [a, b, c];
    assert [a, b, c][..2] == [a, b] && [a, b][..1] == [a] && [a][..0] == [];
    assert Runs.Exec(Step, s, []) == s;
    assert Runs.Exec(Step, s, [a]) == Step(s, a);
    assert Runs.Exec(Step, s, [a, b]) == Step(Step(s, a), b);
    assert Runs.Exec(Step, s, [a, b, c]) == Step(Step(Step(s, a), b), c);
    assert Runs.Exec(Step, s, [a, b, c, d]) == Step(Step(Step(Step(s, a), b), c), d);
  }

  /**
   Redeeming a ticket that can be redeemed opens a session, for its token's expiry, exactly if the
   token has one and it is still ahead; any other redemption opens none.
   */
  lemma AdmittedExactly(acts: seq<Action>, ticket: string)
    ensures var s := Runs.Exec(Step, START, acts);
            var s' := Step(s, Redeem(ticket));
            var redeemable := ticket in s.issued && s.now < s.issued[ticket].at + TICKET_TTL
                && !IsRedeemed(s.redemptions, ticket);
            var end := if ticket in s.issued then s.issued[ticket].claims.expiresAt else None;
            && s'.redemptions == s.redemptions + (if redeemable
                                                  then [Redemption(ticket, s.issued[ticket].claims, s.now)] else [])
            && s'.sessions == s.sessions + (if redeemable && end.Some? && s.now < end.value
                                            then [Session(|s.redemptions|, end.value, None, None, false)] else [])
  {
    RedeemableExactly(acts, ticket);
    var s := Runs.Exec(Step, START, acts);
    assert s.redemptions + [] == s.redemptions && s.sessions + [] == s.sessions;
    hide Runs.Exec, GetDel, IsRedeemed, SetWithTTL, SessionTimer;
  }

  ghost predicate Left(s: State, i: nat)
  {
    i < |s.sessions| && s.sessions[i].servedAt.Some? && !s.sessions[i].open
  }

  lemma StepKeepsLeft(s: State, a: Action, i: nat)
    requires Left(s, i)
    ensures Left(Step(s, a), i)
  {
    hide GetDel, SetWithTTL, Unexpired, SessionTimer;
  }

  /** A session that was served and then disconnects is never open again. */
  lemma DisconnectedForGood(acts: seq<Action>, i: nat, more: seq<Action>)
    requires i < |Runs.Exec(Step, START, acts).sessions|
    requires Runs.Exec(Step, START, acts).sessions[i].servedAt.Some?
    ensures var s := Runs.Exec(Step, START, acts + [Disconnect(i)] + more);
            i < |s.sessions| && !s.sessions[i].open
  {
    assert (acts + [Disconnect(i)])[..|acts|] == acts;
    var left := Runs.Exec(Step, START, acts + [Disconnect(i)]);
    assert left == Step(Runs.Exec(Step, START, acts), Disconnect(i));
    Runs.Concat(Step, START, acts + [Disconnect(i)], more);
    hide Runs.Exec;
    assert Left(left, i);
    hide Step;
    var inv := (s: State) => Left(s, i);
    forall s, a | inv(s) ensures inv(Step(s, a)) { StepKeepsLeft(s, a, i); }
    Runs.Invariance(Step, inv, left, more);
  }
}
