/** One browser session through the login routes of blueprints/auth.py: password, second factor, broker
 * resume, logout. The account records are shared; other sessions change them through `Elsewhere`.
 */
module AuthSession {
  import opened Wrappers

  const PENDING_MAX_AGE := 300.0

  /** The 2FA flags of an account. */
  datatype Account = Account(enabled: bool, forLogin: bool, forMcp: bool, forReset: bool)

  /** The session keys the login routes use; times in seconds. */
  datatype Session = Session(user: Option<string>, pendingUser: Option<string>, pendingSince: Option<real>,
                             verifiedAt: Option<real>, loggedIn: bool, loginTime: Option<real>,
                             sessionKey: Option<string>, broker: Option<string>, sessionId: Option<string>)

  const NO_SESSION := Session(None, None, None, None, false, None, None, None, None)

  /** What was proved to the server since the session was last cleared, in order. */
  datatype Fact =
    | PasswordAccepted(user: string, at: real, totpRequired: bool)
    | CodeAccepted(user: string, at: real)

  datatype World = World(session: Session, accounts: map<string, Account>, facts: seq<Fact>)

  /** How the attempt to resume a broker session ends: not tried to the end, done, or broken off inside
    * the success handler, before or after it stamps the login time. */
  datatype Resume = NoBroker | Resumed(broker: string, id: string) | BrokenOff(broker: string, timed: bool)

  /** A request. `expired` says whether the daily expiry has passed since the session's login time. */
  datatype Event =
    | Login(username: string, passwordOk: bool, setUp: bool, expired: bool, at: real, resume: Resume)
    | LoginPage(setUp: bool, expired: bool)
    | Totp(codeGiven: bool, codeOk: bool, at: real, resume: Resume)
    | Configure(expired: bool, codeGiven: bool, codeOk: bool, wanted: Account, at: real)
    | Guarded(expired: bool)
    | ChangePassword(expired: bool, accepted: bool)
    | Logout(foreign: bool)
    | Elsewhere(username: string, account: Option<Account>)

  // ---------------------------------------------------------------- what each request does

  predicate RequiredForLogin(accounts: map<string, Account>, username: string) {
    username in accounts && accounts[username].enabled && accounts[username].forLogin
  }

  predicate IsValid(s: Session, expired: bool) {
    s.loggedIn && s.loginTime.Some? && !expired
  }

  function Cleared(w: World): World {
    w.(session := NO_SESSION, facts := [])
  }

  function WithResume(s: Session, username: string, at: real, resume: Resume): Session {
    match resume
    case NoBroker => s
    case Resumed(broker, id) =>
      s.(loggedIn := true, sessionKey := Some(username), broker := Some(broker), loginTime := Some(at),
         sessionId := Some(id))
    case BrokenOff(broker, timed) =>
      s.(loggedIn := false, sessionKey := Some(username), broker := None, sessionId := None,
         loginTime := if timed then Some(at) else s.loginTime)
  }

  /** An expired login is cleared before anything else is looked at. */
  function DroppedIfExpired(w: World, expired: bool): World {
    if w.session.loggedIn && !IsValid(w.session, expired) then Cleared(w) else w
  }

  function AfterPassword(w: World, username: string, at: real, resume: Resume): World {
    var required := RequiredForLogin(w.accounts, username);
    var c := Cleared(w).(facts := [PasswordAccepted(username, at, required)]);
    if required then c.(session := NO_SESSION.(pendingUser := Some(username), pendingSince := Some(at)))
    else c.(session := WithResume(NO_SESSION.(user := Some(username)), username, at, resume))
  }

  function LoggedIn(w: World, username: string, passwordOk: bool, setUp: bool, expired: bool, at: real,
                    resume: Resume): World {
    if !setUp || IsValid(w.session, expired) then w
    else
      var d := DroppedIfExpired(w, expired);
      if d.session.user.Some? || !passwordOk then d else AfterPassword(d, username, at, resume)
  }

  predicate IsFresh(s: Session, at: real) {
    s.pendingSince.Some? && at - s.pendingSince.value <= PENDING_MAX_AGE
  }

  function NoPending(s: Session): Session {
    s.(pendingUser := None, pendingSince := None)
  }

  function CodeEntered(w: World, codeGiven: bool, codeOk: bool, at: real, resume: Resume): World {
    var s := w.session;
    if !IsFresh(s, at) then w.(session := NoPending(s))
    else if s.pendingUser.None? || !codeGiven then w
    else
      var u := s.pendingUser.value;
      if u !in w.accounts || !codeOk then w
      else
        var promoted := NoPending(s.(user := Some(u), verifiedAt := Some(at)));
        w.(session := WithResume(promoted, u, at, resume), facts := w.facts + [CodeAccepted(u, at)])
  }

  /** Per-purpose flags are kept only under the master switch. */
  function Masked(wanted: Account): Account {
    if wanted.enabled then wanted else Account(false, false, false, false)
  }

  function Configured(w: World, expired: bool, codeGiven: bool, codeOk: bool, wanted: Account, at: real): World {
    var s := w.session;
    if !IsValid(s, expired) then Cleared(w)
    else if !codeGiven || s.user.None? || s.user.value !in w.accounts || !codeOk then w
    else World(s.(verifiedAt := Some(at)), w.accounts[s.user.value := Masked(wanted)],
               w.facts + [CodeAccepted(s.user.value, at)])
  }

  function Step(w: World, e: Event): World {
    match e
    case Login(username, passwordOk, setUp, expired, at, resume) =>
      LoggedIn(w, username, passwordOk, setUp, expired, at, resume)
    case LoginPage(setUp, expired) => if setUp then DroppedIfExpired(w, expired) else w
    case Totp(codeGiven, codeOk, at, resume) => CodeEntered(w, codeGiven, codeOk, at, resume)
    case Configure(expired, codeGiven, codeOk, wanted, at) => Configured(w, expired, codeGiven, codeOk, wanted, at)
    case Guarded(expired) => if IsValid(w.session, expired) then w else Cleared(w)
    case ChangePassword(expired, accepted) => if IsValid(w.session, expired) && !accepted then w else Cleared(w)
    case Logout(foreign) => if foreign then w else Cleared(w)
    case Elsewhere(username, account) =>
      w.(accounts := if account.Some? then w.accounts[username := account.value] else w.accounts - {username})
  }

  function Run(w: World, events: seq<Event>): World
    decreases |events|
  {
    if events == [] then w else Run(Step(w, events[0]), events[1..])
  }

  // ---------------------------------------------------------------- the routes as they run

  class Browser {
    var user: Option<string>
    var pendingUser: Option<string>
    var pendingSince: Option<real>
    var verifiedAt: Option<real>
    var loggedIn: bool
    var loginTime: Option<real>
    var sessionKey: Option<string>
    var broker: Option<string>
    var sessionId: Option<string>
    var accounts: map<string, Account>
    ghost var facts: seq<Fact>

    ghost function View(): World
      reads this
    {
      World(Session(user, pendingUser, pendingSince, verifiedAt, loggedIn, loginTime, sessionKey, broker, sessionId),
            accounts, facts)
    }

    constructor (accounts: map<string, Account>)
      ensures View() == World(NO_SESSION, accounts, [])
    {
      user, pendingUser, pendingSince, verifiedAt := None, None, None, None;
      loggedIn, loginTime, sessionKey, broker, sessionId := false, None, None, None, None;
      this.accounts := accounts;
      facts := [];
    }

    predicate SessionIsValid(expired: bool)
      reads this
      ensures SessionIsValid(expired) == IsValid(View().session, expired)
    {
      loggedIn && loginTime.Some? && !expired
    }

    method Clear()
      modifies this
      ensures View() == Cleared(old(View()))
    {
      user, pendingUser, pendingSince, verifiedAt := None, None, None, None;
      loggedIn, loginTime, sessionKey, broker, sessionId := false, None, None, None, None;
      facts := [];
    }

    method ClearPendingTotp()
      modifies this
      ensures View() == old(View()).(session := NoPending(old(View()).session))
    {
      pendingUser, pendingSince := None, None;
    }

    method TryResumeBrokerSession(username: string, at: real, resume: Resume)
      modifies this
      ensures View() == old(View()).(session := WithResume(old(View()).session, username, at, resume))
    {
      if resume.NoBroker? { return; }
      loggedIn, sessionKey, broker := true, Some(username), Some(resume.broker);
      if resume.BrokenOff? {
        if resume.timed { loginTime := Some(at); }
        loggedIn, broker, sessionId := false, None, None;
        return;
      }
      loginTime := Some(at);
      sessionId := Some(resume.id);
    }

    method PostLogin(username: string, passwordOk: bool, setUp: bool, expired: bool, at: real, resume: Resume)
      modifies this
      ensures View() == Step(old(View()), Login(username, passwordOk, setUp, expired, at, resume))
    {
      if !setUp { return; }
      if loggedIn {
        if SessionIsValid(expired) { return; }
        Clear();
      }
      if user.Some? { return; }
      if !passwordOk { return; }
      Clear();
      ghost var required := RequiredForLogin(accounts, username);
      facts := [PasswordAccepted(username, at, required)];
      if username in accounts && accounts[username].enabled && accounts[username].forLogin {
        user := None;
        pendingUser := Some(username);
        pendingSince := Some(at);
        return;
      }
      user := Some(username);
      TryResumeBrokerSession(username, at, resume);
    }

    method GetLogin(setUp: bool, expired: bool)
      modifies this
      ensures View() == Step(old(View()), LoginPage(setUp, expired))
    {
      if !setUp { return; }
      if loggedIn && !SessionIsValid(expired) { Clear(); }
    }

    method LoginTotp(codeGiven: bool, codeOk: bool, at: real, resume: Resume)
      modifies this
      ensures View() == Step(old(View()), Totp(codeGiven, codeOk, at, resume))
    {
      if pendingSince.None? || at - pendingSince.value > PENDING_MAX_AGE {
        ClearPendingTotp();
        return;
      }
      if pendingUser.None? { return; }
      var username := pendingUser.value;
      if !codeGiven { return; }
      if username !in accounts || !codeOk { return; }
      user := Some(username);
      verifiedAt := Some(at);
      facts := facts + [CodeAccepted(username, at)];
      ClearPendingTotp();
      TryResumeBrokerSession(username, at, resume);
    }

    method TwoFactorConfigure(expired: bool, codeGiven: bool, codeOk: bool, wanted: Account, at: real)
      modifies this
      ensures View() == Step(old(View()), Configure(expired, codeGiven, codeOk, wanted, at))
    {
      var entered := CheckSessionValidity(expired);
      if !entered { return; }
      if !codeGiven { return; }
      if user.None? || user.value !in accounts { return; }
      if !codeOk { return; }
      var enabled := wanted.enabled;
      var forLogin := if enabled then wanted.forLogin else false;
      var forMcp := if enabled then wanted.forMcp else false;
      var forReset := if enabled then wanted.forReset else false;
      accounts := accounts[user.value := Account(enabled, forLogin, forMcp, forReset)];
      verifiedAt := Some(at);
      facts := facts + [CodeAccepted(user.value, at)];
    }

    /** The guard in front of a route: an invalid session is cleared and the route is not entered. */
    method CheckSessionValidity(expired: bool) returns (entered: bool)
      modifies this
      ensures entered == IsValid(old(View()).session, expired)
      ensures View() == Step(old(View()), Guarded(expired))
    {
      entered := SessionIsValid(expired);
      if !entered { Clear(); }
    }

    /** `accepted`: the old password is right and the new one passes. */
    method ChangePassword(expired: bool, accepted: bool)
      modifies this
      ensures View() == Step(old(View()), Event.ChangePassword(expired, accepted))
    {
      var entered := CheckSessionValidity(expired);
      if entered && accepted { Clear(); }
    }

    method GetLogout(foreign: bool)
      modifies this
      ensures View() == Step(old(View()), Logout(foreign))
    {
      if foreign { return; }
      Clear();
    }
  }

  // ---------------------------------------------------------------- what every run keeps

  /** `u` proved the password since the last clearing, and then, if the account required it at that
    * moment, a code within five minutes of it. */
  predicate Authenticated(facts: seq<Fact>, u: string) {
    && |facts| > 0 && facts[0].PasswordAccepted? && facts[0].user == u
    && (facts[0].totpRequired ==>
          |facts| > 1 && facts[1].CodeAccepted? && facts[1].user == u && facts[1].at - facts[0].at <= 300.0)
  }

  predicate Safe(w: World) {
    var s := w.session;
    && (s.user.Some? ==> s.pendingUser.None? && s.pendingSince.None? && Authenticated(w.facts, s.user.value))
    && (s.pendingUser.Some? ==>
          && s.pendingSince.Some?
          && w.facts == [PasswordAccepted(s.pendingUser.value, s.pendingSince.value, true)])
    && (s.loggedIn ==> s.user.Some? && s.sessionKey == s.user && s.loginTime.Some? && s.broker.Some?)
    && (s.verifiedAt.Some? ==> s.user.Some? && CodeAccepted(s.user.value, s.verifiedAt.value) in w.facts)
  }

  lemma ResumeKeepsSafe(w: World, u: string, at: real, resume: Resume)
    requires Safe(w) && w.session.user == Some(u)
    ensures Safe(w.(session := WithResume(w.session, u, at, resume)))
  {
  }

  lemma PasswordKeepsSafe(w: World, username: string, at: real, resume: Resume)
    ensures Safe(AfterPassword(w, username, at, resume))
  {
    if !RequiredForLogin(w.accounts, username) {
      var c := World(NO_SESSION.(user := Some(username)), w.accounts, [PasswordAccepted(username, at, false)]);
      ResumeKeepsSafe(c, username, at, resume);
    }
  }

  lemma CodeKeepsSafe(w: World, codeGiven: bool, codeOk: bool, at: real, resume: Resume)
    requires Safe(w)
    ensures Safe(CodeEntered(w, codeGiven, codeOk, at, resume))
  {
    var s := w.session;
    if IsFresh(s, at) && s.pendingUser.Some? && codeGiven && codeOk && s.pendingUser.value in w.accounts {
      var u := s.pendingUser.value;
      var facts := w.facts + [CodeAccepted(u, at)];
      assert facts[1] == CodeAccepted(u, at);
      var promoted := World(NoPending(s.(user := Some(u), verifiedAt := Some(at))), w.accounts, facts);
      assert CodeAccepted(u, at) in facts;
      ResumeKeepsSafe(promoted, u, at, resume);
    }
  }

  lemma StepKeepsSafe(w: World, e: Event)
    requires Safe(w)
    ensures Safe(Step(w, e))
  {
    match e {
      case Login(username, passwordOk, setUp, expired, at, resume) =>
        PasswordKeepsSafe(DroppedIfExpired(w, expired), username, at, resume);
      case Totp(codeGiven, codeOk, at, resume) => CodeKeepsSafe(w, codeGiven, codeOk, at, resume);
      case _ =>
    }
  }

  lemma {:induction false} RunKeepsSafe(w: World, events: seq<Event>)
    requires Safe(w)
    ensures Safe(Run(w, events))
    decreases |events|
  {
    if events != [] {
      StepKeepsSafe(w, events[0]);
      RunKeepsSafe(Step(w, events[0]), events[1..]);
    }
  }

  /** Over any run: a session belongs to a user only if, since it was last cleared, that user's password
    * was accepted and then, where the account required it, a code within five minutes; a user and a
    * pending second factor never coexist; a broker login belongs to that same user. */
  lemma UserIsAuthenticated(accounts: map<string, Account>, events: seq<Event>)
    ensures var w := Run(World(NO_SESSION, accounts, []), events);
            && (w.session.user.Some? ==> Authenticated(w.facts, w.session.user.value) && w.session.pendingUser.None?)
            && (w.session.loggedIn ==> w.session.user.Some? && w.session.sessionKey == w.session.user)
            && (w.session.verifiedAt.Some? ==>
                  w.session.user.Some? && CodeAccepted(w.session.user.value, w.session.verifiedAt.value) in w.facts)
  {
    RunKeepsSafe(World(NO_SESSION, accounts, []), events);
  }

  /** Exactly which requests give a session its user: a login with the right password on an account that
    * does not ask for a code, or the right code in time for the user who is waiting. */
  lemma UserAppearsIff(w: World, e: Event, u: string)
    requires Safe(w) && w.session.user.None?
    ensures Step(w, e).session.user == Some(u)
       <==> || (e.Login? && e.username == u && e.passwordOk && e.setUp && !AsksForCode(w, u))
            || (e.Totp? && w.session.pendingUser == Some(u) && w.session.pendingSince.Some?
                && e.at - w.session.pendingSince.value <= 300.0 && e.codeGiven && e.codeOk && u in w.accounts)
  {
  }

  /** The account has its second factor on, and on for logins. */
  predicate AsksForCode(w: World, u: string) {
    u in w.accounts && w.accounts[u].enabled && w.accounts[u].forLogin
  }

  /** A login whose daily expiry has passed. */
  predicate HasExpired(w: World, expired: bool) {
    w.session.loggedIn && expired
  }

  /** The session may enter a guarded route. */
  predicate MayEnter(w: World, expired: bool) {
    w.session.loggedIn && w.session.loginTime.Some? && !expired
  }

  /** Nobody is there: no user, nobody waiting, no login, no broker. */
  predicate IsEmpty(s: Session) {
    && s.user.None? && s.pendingUser.None? && s.pendingSince.None? && s.verifiedAt.None? && !s.loggedIn
    && s.loginTime.None? && s.sessionKey.None? && s.broker.None? && s.sessionId.None?
  }

  /** An own logout, an accepted change of password, or a guarded route without a valid login. */
  predicate Leaves(w: World, e: Event) {
    || (e.Logout? && !e.foreign)
    || (e.ChangePassword? && (e.accepted || !MayEnter(w, e.expired)))
    || ((e.Guarded? || e.Configure?) && !MayEnter(w, e.expired))
    || (e.LoginPage? && e.setUp && w.session.loggedIn && !MayEnter(w, e.expired))
  }

  /** A foreign logout, a refused change of password, a guarded route that is entered, or the login page. */
  predicate Stays(w: World, e: Event) {
    || (e.Logout? && e.foreign)
    || (e.ChangePassword? && !e.accepted && MayEnter(w, e.expired))
    || (e.Guarded? && MayEnter(w, e.expired))
    || (e.LoginPage? && !(e.setUp && w.session.loggedIn && !MayEnter(w, e.expired)))
  }

  /** The ones leave nobody in the session and touch no account; the others leave everything as it is. */
  lemma LeavesNobody(w: World, e: Event)
    ensures Leaves(w, e) ==>
              IsEmpty(Step(w, e).session) && Step(w, e).accounts == w.accounts && Step(w, e).facts == []
    ensures Stays(w, e) ==> Step(w, e) == w
  {
  }

  /** What a login that breaks off while it resumes the broker leaves behind: the user, not logged in, with no
    * broker, and the login time if it got that far. */
  lemma BrokenResumeLeaves(w: World, e: Event)
    requires e.Login? && e.setUp && e.passwordOk && !AsksForCode(w, e.username) && e.resume.BrokenOff?
    requires w.session.user.None? && !w.session.loggedIn
    ensures var t := Step(w, e).session;
            && t.user == Some(e.username) && t.sessionKey == Some(e.username) && !t.loggedIn
            && t.broker.None? && t.sessionId.None? && t.loginTime == (if e.resume.timed then Some(e.at) else None)
            && t.pendingUser.None? && t.verifiedAt.None?
  {
  }

  /** Exactly which requests take a session its user. */
  lemma UserGoesIff(w: World, e: Event, u: string)
    requires Safe(w) && w.session.user == Some(u)
    ensures Step(w, e).session.user != Some(u)
       <==> || (e.Logout? && !e.foreign)
            || (e.ChangePassword? && (e.accepted || !MayEnter(w, e.expired)))
            || ((e.Guarded? || e.Configure?) && !MayEnter(w, e.expired))
            || (e.LoginPage? && e.setUp && HasExpired(w, e.expired))
            || (e.Login? && e.setUp && HasExpired(w, e.expired)
                && !(e.passwordOk && e.username == u && !AsksForCode(w, u)))
  {
  }

  /** Exactly which requests leave a user waiting for the second factor, and since when. */
  lemma PendingAppearsIff(w: World, e: Event, u: string)
    requires Safe(w) && w.session.pendingUser != Some(u)
    ensures Step(w, e).session.pendingUser == Some(u)
       <==> e.Login? && e.setUp && e.passwordOk && e.username == u && AsksForCode(w, u)
            && !MayEnter(w, e.expired) && (w.session.user.None? || HasExpired(w, e.expired))
    ensures Step(w, e).session.pendingUser == Some(u) ==> Step(w, e).session.pendingSince == Some(e.at)
  {
  }

  /** What a code does for whoever is waiting: nothing when it is missing or wrong, an end to the waiting when
    * more than five minutes have passed, and else the session. */
  lemma CodeDecides(w: World, e: Event)
    requires e.Totp?
    ensures var s, t := w.session, Step(w, e).session;
            && Step(w, e).accounts == w.accounts
            && (s.pendingSince.None? || e.at - s.pendingSince.value > 300.0 ==>
                  t == s.(pendingUser := None, pendingSince := None) && Step(w, e).facts == w.facts)
            && (s.pendingSince.Some? && e.at - s.pendingSince.value <= 300.0 ==>
                  if s.pendingUser.Some? && e.codeGiven && e.codeOk && s.pendingUser.value in w.accounts then
                    && t.user == s.pendingUser && t.verifiedAt == Some(e.at) && t.pendingUser.None?
                    && t.pendingSince.None? && Step(w, e).facts == w.facts + [CodeAccepted(t.user.value, e.at)]
                  else Step(w, e) == w)
  {
  }

  /** Exactly when a session gets a broker login, whose it is and from when. */
  lemma BrokerLoginIff(w: World, e: Event)
    requires Safe(w) && !w.session.loggedIn
    ensures var t := Step(w, e).session;
            && (t.loggedIn <==>
                  && ((e.Login? && e.setUp && e.passwordOk && w.session.user.None? && !AsksForCode(w, e.username))
                      || (e.Totp? && w.session.pendingUser.Some? && w.session.pendingSince.Some?
                          && e.at - w.session.pendingSince.value <= 300.0 && e.codeGiven && e.codeOk
                          && w.session.pendingUser.value in w.accounts))
                  && e.resume.Resumed?)
            && (t.loggedIn ==> t.user.Some? && t.sessionKey == t.user && t.broker == Some(e.resume.broker)
                               && t.sessionId == Some(e.resume.id) && t.loginTime == Some(e.at))
  {
  }

  // ---------------------------------------------------------------- the account flags

  predicate Consistent(a: Account) {
    a.forLogin || a.forMcp || a.forReset ==> a.enabled
  }

  ghost predicate AllConsistent(accounts: map<string, Account>) {
    forall u :: u in accounts ==> Consistent(accounts[u])
  }

  /** A request of this session changes an account's flags only if it is the session's own account, a
    * configuration with an accepted code for it, and the session is valid. */
  lemma FlagsNeedACode(w: World, e: Event, u: string)
    requires !e.Elsewhere? && u in w.accounts
    ensures u in Step(w, e).accounts
    ensures Step(w, e).accounts[u] != w.accounts[u] ==>
              && e.Configure? && e.codeGiven && e.codeOk && IsValid(w.session, e.expired) && w.session.user == Some(u)
              && CodeAccepted(u, e.at) in Step(w, e).facts
  {
  }

  /** And what it changes them to: what was asked for under the master switch, and nothing without it; no other
    * account is touched. */
  lemma FlagsBecome(w: World, e: Event)
    requires e.Configure?
    ensures var u := w.session.user;
            if MayEnter(w, e.expired) && e.codeGiven && e.codeOk && u.Some? && u.value in w.accounts then
              && Step(w, e).accounts.Keys == w.accounts.Keys
              && (forall v :: v in w.accounts && v != u.value ==> Step(w, e).accounts[v] == w.accounts[v])
              && Step(w, e).accounts[u.value].enabled == e.wanted.enabled
              && Step(w, e).accounts[u.value].forLogin == (e.wanted.enabled && e.wanted.forLogin)
              && Step(w, e).accounts[u.value].forMcp == (e.wanted.enabled && e.wanted.forMcp)
              && Step(w, e).accounts[u.value].forReset == (e.wanted.enabled && e.wanted.forReset)
            else Step(w, e).accounts == w.accounts
  {
  }

  lemma {:induction false} RunKeepsConsistent(w: World, events: seq<Event>)
    requires AllConsistent(w.accounts)
    requires forall i :: 0 <= i < |events| ==>
               events[i].Elsewhere? && events[i].account.Some? ==> Consistent(events[i].account.value)
    ensures AllConsistent(Run(w, events).accounts)
    decreases |events|
  {
    if events != [] {
      assert forall i :: 0 <= i < |events| - 1 ==> events[1..][i] == events[i + 1];
      RunKeepsConsistent(Step(w, events[0]), events[1..]);
    }
  }
}
