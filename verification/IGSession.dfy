/** IG's short-lived session token, shared by any number of concurrent requests. */
module IGSession {
  import opened Clock
  import opened Wrappers

  const TOKEN_FALLBACK_LIFETIME: int := 60 * SECOND
  const TOKEN_SAFETY_MARGIN: int := 10 * SECOND

  datatype Session = Session(token: string, account: string, expiry: int, gen: nat)

  const NO_SESSION := Session("", "", 0, 0)

  predicate Live(s: Session, now: int) {
    s.token != "" && now < s.expiry
  }

  /** What the login endpoint answered and when; no answer, or an empty token, is a failed login. */
  datatype Login = Refused | Login(token: string, account: string, expiresIn: Option<int>, at: int)

  predicate Succeeds(login: Login) {
    login.Login? && login.token != ""
  }

  /** How long to trust a token: the stated lifetime, or the fallback, less a margin that always leaves some. */
  function Lifetime(expiresIn: Option<int>): (life: int)
    ensures life > 0
    ensures expiresIn.Some? && expiresIn.value > 0 ==> life <= expiresIn.value * SECOND
  {
    var stated := if expiresIn.Some? && expiresIn.value > 0 then expiresIn.value * SECOND else TOKEN_FALLBACK_LIFETIME;
    if stated > TOKEN_SAFETY_MARGIN then stated - TOKEN_SAFETY_MARGIN else stated
  }

  /** Ten seconds short of what was stated, all of it where ten seconds or less were stated, and fifty seconds
      where nothing readable was; in nanoseconds. */
  lemma LifetimeIs(expiresIn: Option<int>)
    ensures expiresIn.Some? && expiresIn.value > 10 ==> Lifetime(expiresIn) == (expiresIn.value - 10) * 1_000_000_000
    ensures expiresIn.Some? && 0 < expiresIn.value <= 10 ==> Lifetime(expiresIn) == expiresIn.value * 1_000_000_000
    ensures expiresIn.None? || expiresIn.value <= 0 ==> Lifetime(expiresIn) == 50_000_000_000
  {
  }

  // ---------------------------------------------------------------- the critical sections

  /** The cached session and the number of logins that succeeded. */
  datatype Cached = Cached(sess: Session, gen: nat)

  function LoggedIn(c: Cached, login: Login): Cached
    requires Succeeds(login)
  {
    Cached(Session(login.token, login.account, login.at + Lifetime(login.expiresIn), c.gen + 1), c.gen + 1)
  }

  /** A live session, from the cache or by logging in. */
  function TakeSession(c: Cached, now: int, login: Login): (Cached, Option<Session>) {
    if Live(c.sess, now) then (c, Some(c.sess))
    else if Succeeds(login) then (LoggedIn(c, login), Some(LoggedIn(c, login).sess))
    else (c, None)
  }

  function Invalidated(c: Cached, gen: nat): Cached {
    if c.sess.gen == gen then c.(sess := NO_SESSION) else c
  }

  class Client {
    var sess: Session
    var sessionGen: nat

    function View(): Cached
      reads this
    {
      Cached(sess, sessionGen)
    }

    constructor ()
      ensures View() == Cached(NO_SESSION, 0)
    {
      sess, sessionGen := NO_SESSION, 0;
    }

    method LogIn(login: Login) returns (ok: bool)
      modifies this
      ensures ok == Succeeds(login)
      ensures View() == if ok then LoggedIn(old(View()), login) else old(View())
    {
      match login
      case Refused =>
        return false;
      case Login(token, account, expiresIn, at) =>
        if token == "" {
          return false;
        }
        sessionGen := sessionGen + 1;
        sess := Session(token, account, at + Lifetime(expiresIn), sessionGen);
        return true;
    }

    method GetSession(now: int, login: Login) returns (r: Option<Session>)
      modifies this
      ensures (View(), r) == TakeSession(old(View()), now, login)
    {
      if Live(sess, now) {
        return Some(sess);
      }
      var ok := LogIn(login);
      if !ok {
        return None;
      }
      return Some(sess);
    }

    method InvalidateSession(gen: nat)
      modifies this
      ensures View() == Invalidated(old(View()), gen)
    {
      if sess.gen == gen {
        sess := NO_SESSION;
      }
    }
  }

  // ---------------------------------------------------------------- concurrent requests

  /** Where a request stands: not begun, waiting for its first answer, told its token is rejected, about to
      retry, waiting for the second answer, finished (with the generation of a second rejection, if any). */
  datatype Pc =
    | New
    | Asked(gen: nat)
    | TurnedAway(gen: nat)
    | Retrying(first: nat)
    | AskedAgain(first: nat, gen: nat)
    | Done(rejected: Option<nat>)

  datatype Attempt = Attempt(request: nat, gen: nat)

  /** The client, its requests, every authenticated attempt sent, the generations the venue rejected, and those
      a login replaced because they had expired. */
  datatype System = System(
    client: Cached,
    pcs: map<nat, Pc>,
    sent: seq<Attempt>,
    rejected: set<nat>,
    expired: set<nat>)

  const START := System(Cached(NO_SESSION, 0), map[], [], {}, {})

  datatype Act =
    | Sign(r: nat, now: int, login: Login)
    | Answer(r: nat, rejects: bool)
    | Retire(r: nat)

  function PcOf(s: System, r: nat): Pc {
    if r in s.pcs then s.pcs[r] else New
  }

  function Next(s: System, a: Act): System {
    match a
    case Sign(r, now, login) =>
      (match PcOf(s, r)
       case New => Signing(s, r, now, login, None)
       case Retrying(first) => Signing(s, r, now, login, Some(first))
       case _ => s)
    case Answer(r, rejects) =>
      (match PcOf(s, r)
       case Asked(gen) =>
         if rejects then s.(pcs := s.pcs[r := TurnedAway(gen)], rejected := s.rejected + {gen})
         else s.(pcs := s.pcs[r := Done(None)])
       case AskedAgain(_, gen) =>
         if rejects then s.(pcs := s.pcs[r := Done(Some(gen))], rejected := s.rejected + {gen})
         else s.(pcs := s.pcs[r := Done(None)])
       case _ => s)
    case Retire(r) =>
      (match PcOf(s, r)
       case TurnedAway(gen) => s.(client := Invalidated(s.client, gen), pcs := s.pcs[r := Retrying(gen)])
       case _ => s)
  }

  /** Takes a session and sends the request with it; a failed login ends the request. */
  function Signing(s: System, r: nat, now: int, login: Login, first: Option<nat>): System {
    var (client, got) := TakeSession(s.client, now, login);
    var replaced := client.gen > s.client.gen && s.client.sess.gen > 0;
    var expired := if replaced && s.client.sess.expiry <= now then s.expired + {s.client.sess.gen} else s.expired;
    match got
    case None => s.(client := client, pcs := s.pcs[r := Done(None)])
    case Some(sess) =>
      var pc := if first.Some? then AskedAgain(first.value, sess.gen) else Asked(sess.gen);
      System(client, s.pcs[r := pc], s.sent + [Attempt(r, sess.gen)], s.rejected, expired)
  }

  function Run(acts: seq<Act>): System {
    if acts == [] then START else Next(Run(acts[..|acts| - 1]), acts[|acts| - 1])
  }

  // ---------------------------------------------------------------- the cache over every run

  /** The cached session is none, or the newest login's. */
  predicate Newest(c: Cached) {
    if c.sess.gen == 0 then c.sess == NO_SESSION else c.sess.token != "" && c.sess.gen == c.gen
  }

  /** A generation no longer cached was rejected by the venue or had expired. */
  ghost predicate GoneForCause(s: System) {
    forall g :: 1 <= g <= s.client.gen && g != s.client.sess.gen ==> g in s.rejected || g in s.expired
  }

  predicate PcKept(s: System, pc: Pc) {
    match pc
    case New => true
    case Asked(gen) => 1 <= gen <= s.client.gen
    case TurnedAway(gen) => 1 <= gen <= s.client.gen && gen in s.rejected
    case Retrying(first) => 1 <= first <= s.client.gen && first != s.client.sess.gen && first in s.rejected
    case AskedAgain(first, gen) => 1 <= first < gen <= s.client.gen && first in s.rejected
    case Done(rejected) => true
  }

  ghost predicate Inv(s: System) {
    Newest(s.client) && GoneForCause(s) && forall r :: r in s.pcs ==> PcKept(s, s.pcs[r])
  }

  lemma SigningKeepsInv(s: System, r: nat, now: int, login: Login, first: Option<nat>)
    requires Inv(s) && (first.Some? ==> PcKept(s, Retrying(first.value)))
    ensures Inv(Signing(s, r, now, login, first))
  {
  }

  lemma NextKeepsInv(s: System, a: Act)
    requires Inv(s)
    ensures Inv(Next(s, a))
  {
    if a.Sign? && PcOf(s, a.r).New? {
      SigningKeepsInv(s, a.r, a.now, a.login, None);
    } else if a.Sign? && PcOf(s, a.r).Retrying? {
      SigningKeepsInv(s, a.r, a.now, a.login, Some(PcOf(s, a.r).first));
    }
  }

  lemma {:induction false} RunKeepsInv(acts: seq<Act>)
    ensures Inv(Run(acts))
  {
    if acts != [] {
      RunKeepsInv(acts[..|acts| - 1]);
      NextKeepsInv(Run(acts[..|acts| - 1]), acts[|acts| - 1]);
    }
  }

  /** In every run, a step takes a live session out of the cache only if it acts on a rejection of that very
      generation: a late rejection of an older one leaves the newer session alone. */
  lemma OnlyItsOwnRejectionRetires(acts: seq<Act>, a: Act)
    ensures var s, s' := Run(acts), Next(Run(acts), a);
      s.client.sess.gen > 0 && s'.client.sess != s.client.sess ==>
        || (s.client.sess.gen in s.rejected && a.Retire? && PcOf(s, a.r) == TurnedAway(s.client.sess.gen))
        || (a.Sign? && s.client.sess.expiry <= a.now && s'.client.sess.gen == s.client.sess.gen + 1)
  {
    RunKeepsInv(acts);
  }

  /** In every run, what a request is signed with: the cached session, before it expires, with no login; otherwise
      the session of a login made because there was none or it had expired. Without either nothing is sent. */
  lemma SignsWithALiveSession(acts: seq<Act>, a: Act)
    requires a.Sign? && (PcOf(Run(acts), a.r).New? || PcOf(Run(acts), a.r).Retrying?)
    ensures var s, s', was := Run(acts), Next(Run(acts), a), Run(acts).client.sess;
      if was.gen > 0 && a.now < was.expiry then s'.client == s.client && s'.sent == s.sent + [Attempt(a.r, was.gen)]
      else if a.login.Refused? || a.login.token == "" then s'.client == s.client && s'.sent == s.sent
      else
        && s'.client.gen == s.client.gen + 1 && s'.sent == s.sent + [Attempt(a.r, s'.client.gen)]
        && s'.client.sess == Session(a.login.token, a.login.account, a.login.at + Lifetime(a.login.expiresIn), s'.client.gen)
  {
    RunKeepsInv(acts);
  }

  lemma RangeCount(n: nat, t: set<nat>)
    requires forall g :: 1 <= g <= n ==> g in t
    ensures n <= |t|
  {
    if n > 0 {
      RangeCount(n - 1, t - {n});
    }
  }

  lemma UnionCount(a: set<nat>, b: set<nat>)
    ensures |a + b| <= |a| + |b|
  {
    assert |a + b| == |a| + |b - a| by {
      assert a + b == a + (b - a);
    }
    assert |b| == |b - a| + |a * b| by {
      assert b == (b - a) + a * b;
    }
  }

  /** In every run, successful logins number at most one more than the generations rejected or expired. */
  lemma LoginsAreBounded(acts: seq<Act>)
    ensures Run(acts).client.gen <= 1 + |Run(acts).rejected| + |Run(acts).expired|
  {
    RunKeepsInv(acts);
    var s := Run(acts);
    if s.client.gen > 0 {
      RangeCount(s.client.gen - 1, s.rejected + s.expired);
    }
    UnionCount(s.rejected, s.expired);
  }

  // ---------------------------------------------------------------- attempts

  /** The generations a request was signed with, in order. */
  function AttemptsOf(sent: seq<Attempt>, r: nat): seq<nat> {
    if sent == [] then []
    else
      var before, last := AttemptsOf(sent[..|sent| - 1], r), sent[|sent| - 1];
      if last.request == r then before + [last.gen] else before
  }

  lemma AttemptSent(sent: seq<Attempt>, r: nat, last: Attempt)
    ensures AttemptsOf(sent + [last], r) == if last.request == r then AttemptsOf(sent, r) + [last.gen] else AttemptsOf(sent, r)
  {
    assert (sent + [last])[..|sent|] == sent;
  }

  /** Two attempts at most, the second with a newer session than the rejected first. */
  predicate OneRetry(attempts: seq<nat>, rejected: set<nat>) {
    |attempts| <= 2 && (|attempts| == 2 ==> attempts[0] < attempts[1] && attempts[0] in rejected)
  }

  predicate Accounted(rejected: set<nat>, pc: Pc, attempts: seq<nat>) {
    match pc
    case New => |attempts| == 0
    case Asked(gen) => |attempts| == 1 && attempts[0] == gen
    case TurnedAway(gen) => |attempts| == 1 && attempts[0] == gen
    case Retrying(first) => |attempts| == 1 && attempts[0] == first
    case AskedAgain(first, gen) => |attempts| == 2 && attempts[0] == first && attempts[1] == gen && OneRetry(attempts, rejected)
    case Done(_) => OneRetry(attempts, rejected)
  }

  lemma NextKeepsAccounts(s: System, a: Act, r: nat)
    requires Inv(s) && Accounted(s.rejected, PcOf(s, r), AttemptsOf(s.sent, r))
    ensures Accounted(Next(s, a).rejected, PcOf(Next(s, a), r), AttemptsOf(Next(s, a).sent, r))
  {
    var attempts := AttemptsOf(s.sent, r);
    if a.Sign? && PcOf(s, a.r).New? {
      SigningSends(s, a, None, r);
      SigningKeepsAccounts(s, a, None, r, attempts);
    } else if a.Sign? && PcOf(s, a.r).Retrying? {
      assert PcKept(s, s.pcs[a.r]);
      SigningSends(s, a, Some(PcOf(s, a.r).first), r);
      SigningKeepsAccounts(s, a, Some(PcOf(s, a.r).first), r, attempts);
    }
  }

  /** The attempts of r once a request has been signed, or has failed to be. */
  function AfterSigning(s: System, a: Act, r: nat, attempts: seq<nat>): seq<nat>
    requires a.Sign?
  {
    var got := TakeSession(s.client, a.now, a.login).1;
    if got.Some? && r == a.r then attempts + [got.value.gen] else attempts
  }

  lemma SigningSends(s: System, a: Act, first: Option<nat>, r: nat)
    requires a.Sign?
    ensures AttemptsOf(Signing(s, a.r, a.now, a.login, first).sent, r) == AfterSigning(s, a, r, AttemptsOf(s.sent, r))
  {
    var got := TakeSession(s.client, a.now, a.login).1;
    if got.Some? {
      AttemptSent(s.sent, r, Attempt(a.r, got.value.gen));
    }
  }

  lemma SigningKeepsAccounts(s: System, a: Act, first: Option<nat>, r: nat, attempts: seq<nat>)
    requires Newest(s.client) && a.Sign? && Accounted(s.rejected, PcOf(s, r), attempts)
    requires PcOf(s, a.r) == (if first.Some? then Retrying(first.value) else New)
    requires first.Some? ==> PcKept(s, Retrying(first.value))
    ensures var s' := Signing(s, a.r, a.now, a.login, first); Accounted(s'.rejected, PcOf(s', r), AfterSigning(s, a, r, attempts))
  {
    var got := TakeSession(s.client, a.now, a.login).1;
    if got.Some? && first.Some? {
      RetryIsNewer(s, a, first.value, got.value.gen);
    }
  }

  lemma RetryIsNewer(s: System, a: Act, first: nat, gen: nat)
    requires Newest(s.client) && PcKept(s, Retrying(first)) && a.Sign?
    requires TakeSession(s.client, a.now, a.login).1.Some? && TakeSession(s.client, a.now, a.login).1.value.gen == gen
    ensures first < gen
  {
  }

  lemma {:induction false} RunIsAccounted(acts: seq<Act>, r: nat)
    ensures Accounted(Run(acts).rejected, PcOf(Run(acts), r), AttemptsOf(Run(acts).sent, r))
  {
    if acts != [] {
      RunIsAccounted(acts[..|acts| - 1], r);
      RunKeepsInv(acts[..|acts| - 1]);
      NextKeepsAccounts(Run(acts[..|acts| - 1]), acts[|acts| - 1], r);
    }
  }

  /** In every run, every request is sent at most twice, and its retry goes out with a newer session than the
      one the venue rejected. */
  lemma RequestsRetryOnce(acts: seq<Act>, r: nat)
    ensures OneRetry(AttemptsOf(Run(acts).sent, r), Run(acts).rejected)
  {
    RunIsAccounted(acts, r);
  }

  // ---------------------------------------------------------------- a venue that rejects superseded tokens only

  /** The answer to a request whose token is still the newest is never a rejection. */
  ghost predicate FairAnswer(s: System, a: Act) {
    a.Answer? && a.rejects ==>
      match PcOf(s, a.r)
      case Asked(gen) => gen < s.client.gen
      case AskedAgain(_, gen) => gen < s.client.gen
      case _ => true
  }

  ghost predicate FairVenue(acts: seq<Act>) {
    forall i :: 0 <= i < |acts| ==> FairAnswer(Run(acts[..i]), acts[i])
  }

  /** Nothing but an expiry ever takes a session out. */
  ghost predicate OnlyExpiryReplaces(s: System) {
    && s.client.sess.gen == s.client.gen
    && (forall g :: 1 <= g < s.client.gen ==> g in s.expired)
    && (forall r :: r in s.pcs ==> !BlamesTheNewest(s, s.pcs[r]))
  }

  predicate BlamesTheNewest(s: System, pc: Pc) {
    match pc
    case TurnedAway(gen) => gen >= s.client.gen
    case Done(Some(gen)) => gen == 0 || gen >= s.client.gen
    case _ => false
  }

  lemma NextKeepsOnlyExpiry(s: System, a: Act)
    requires Inv(s) && OnlyExpiryReplaces(s) && FairAnswer(s, a)
    ensures OnlyExpiryReplaces(Next(s, a))
  {
  }

  lemma {:induction false} FairRunsOnlyExpire(acts: seq<Act>)
    requires FairVenue(acts)
    ensures OnlyExpiryReplaces(Run(acts))
  {
    if acts != [] {
      var before := acts[..|acts| - 1];
      forall i | 0 <= i < |before|
        ensures FairAnswer(Run(before[..i]), before[i])
      {
        assert before[..i] == acts[..i];
      }
      FairRunsOnlyExpire(before);
      RunKeepsInv(before);
      NextKeepsOnlyExpiry(Run(before), acts[|acts| - 1]);
    }
  }

  /** Against such a venue logins number at most one more than expiries, and a request that comes back rejected
      a second time was retried with a session that expired meanwhile: concurrency alone never fails one. */
  lemma HealthyAccountIsNotRejected(acts: seq<Act>, r: nat)
    requires FairVenue(acts)
    ensures Run(acts).client.gen <= 1 + |Run(acts).expired|
    ensures PcOf(Run(acts), r).Done? && PcOf(Run(acts), r).rejected.Some? ==> PcOf(Run(acts), r).rejected.value in Run(acts).expired
  {
    FairRunsOnlyExpire(acts);
    var s := Run(acts);
    if s.client.gen > 0 {
      RangeCount(s.client.gen - 1, s.expired);
    }
    assert r in s.pcs ==> !BlamesTheNewest(s, s.pcs[r]);
  }
}
