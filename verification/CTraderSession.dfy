/** The cTrader socket: requesters and the background loops of every socket, interleaved step by step. */
module CTraderSession {
  import opened Wrappers

  /** Sockets are numbered as they are installed, and a socket's heartbeat stop channel has its number. */
  type Socket = nat

  datatype Auth = App | Account(id: int)

  /** The connector's fields, then what happened to the outside: sockets installed, which authentications the
      broker granted on which socket, stop channels taken for closing and closed, the socket that raised the
      token flag, and the first socket number not dropped by a completed token refresh. */
  datatype Conn = Conn(
    ws: Option<Socket>,
    appAuthenticated: bool,
    authenticatedAccount: int,
    heartbeatStop: Option<Socket>,
    tokenInvalidated: bool,
    installed: nat,
    granted: set<(Socket, Auth)>,
    closing: multiset<Socket>,
    closed: multiset<Socket>,
    invalidatedBy: Option<Socket>,
    floor: nat)

  const FRESH := Conn(None, false, 0, None, false, 0, {}, multiset{}, multiset{}, None, 0)

  // ---------------------------------------------------------------- the critical sections

  /** A dialled socket becomes the connection unless another one got there first. */
  function Install(c: Conn): Conn {
    if c.ws.Some? then c
    else c.(ws := Some(c.installed), appAuthenticated := false, authenticatedAccount := 0,
            heartbeatStop := Some(c.installed), installed := c.installed + 1)
  }

  function StoreAuth(c: Conn, auth: Auth): Conn {
    match auth
    case App => c.(appAuthenticated := true)
    case Account(id) => c.(authenticatedAccount := id)
  }

  function Taken(stop: Option<Socket>): multiset<Socket> {
    if stop.Some? then multiset{stop.value} else multiset{}
  }

  function Disconnect(c: Conn): Conn {
    c.(ws := None, appAuthenticated := false, authenticatedAccount := 0, heartbeatStop := None,
       closing := c.closing + Taken(c.heartbeatStop))
  }

  /** A loop or a request that lost its socket drops it, unless it was replaced already. */
  function MarkDisconnected(c: Conn, ws: Socket): Conn {
    if c.ws != Some(ws) then c else Disconnect(c)
  }

  function InvalidateToken(c: Conn, ws: Socket): Conn {
    if c.ws != Some(ws) then c else c.(tokenInvalidated := true, invalidatedBy := Some(ws))
  }

  function CloseStop(c: Conn, stop: Socket): Conn {
    if stop in c.closing then c.(closing := c.closing - multiset{stop}, closed := c.closed + multiset{stop}) else c
  }

  /** The end of a token refresh whose disconnect ran when `below` sockets had been installed. */
  function ClearInvalidated(c: Conn, below: nat): Conn {
    c.(tokenInvalidated := false, floor := if below > c.floor then below else c.floor)
  }

  // ---------------------------------------------------------------- the connector itself

  class Connector {
    var ws: Option<Socket>
    var appAuthenticated: bool
    var authenticatedAccount: int
    var heartbeatStop: Option<Socket>
    var tokenInvalidated: bool
    ghost var installed: nat
    ghost var granted: set<(Socket, Auth)>
    ghost var closing: multiset<Socket>
    ghost var closed: multiset<Socket>
    ghost var invalidatedBy: Option<Socket>
    ghost var floor: nat

    ghost function View(): Conn
      reads this
    {
      Conn(ws, appAuthenticated, authenticatedAccount, heartbeatStop, tokenInvalidated,
           installed, granted, closing, closed, invalidatedBy, floor)
    }

    constructor ()
      ensures View() == FRESH
    {
      ws, appAuthenticated, authenticatedAccount, heartbeatStop, tokenInvalidated := None, false, 0, None, false;
      installed, granted, closing, closed, invalidatedBy, floor := 0, {}, multiset{}, multiset{}, None, 0;
    }

    /** The second half of connecting, with a socket just dialled. */
    method InstallSocket(dialled: Socket) returns (kept: bool)
      requires dialled == installed
      modifies this
      ensures View() == Install(old(View())) && kept == old(ws).None?
    {
      if ws.Some? {
        return false;
      }
      ws := Some(dialled);
      appAuthenticated := false;
      authenticatedAccount := 0;
      heartbeatStop := Some(dialled);
      installed := installed + 1;
      return true;
    }

    method NoteAuthenticated(auth: Auth)
      modifies this
      ensures View() == StoreAuth(old(View()), auth)
    {
      match auth
      case App => appAuthenticated := true;
      case Account(id) => authenticatedAccount := id;
    }

    /** Drops the connection; the caller closes the channel it is handed. */
    method DropSocket() returns (stop: Option<Socket>)
      modifies this
      ensures View() == Disconnect(old(View())) && stop == old(heartbeatStop)
    {
      stop := heartbeatStop;
      ws := None;
      heartbeatStop := None;
      appAuthenticated := false;
      authenticatedAccount := 0;
      closing := closing + Taken(stop);
    }

    method NoteDisconnected(socket: Socket) returns (stop: Option<Socket>)
      modifies this
      ensures View() == MarkDisconnected(old(View()), socket)
      ensures stop == if old(ws) == Some(socket) then old(heartbeatStop) else None
    {
      if ws != Some(socket) {
        return None;
      }
      stop := DropSocket();
    }

    method NoteInvalidated(socket: Socket) returns (current: bool)
      modifies this
      ensures View() == InvalidateToken(old(View()), socket) && current == (old(ws) == Some(socket))
    {
      current := ws == Some(socket);
      if current {
        tokenInvalidated := true;
        invalidatedBy := Some(socket);
      }
    }

    method ForgetInvalidation(ghost below: nat)
      modifies this
      ensures View() == ClearInvalidated(old(View()), below)
    {
      tokenInvalidated := false;
      floor := if below > floor then below else floor;
    }
  }

  // ---------------------------------------------------------------- requesters and loops

  /** Where a requester stands between its critical sections. */
  datatype Pc =
    | Idle
    | Dialing
    | Awaiting(auth: Auth, ws: Socket)
    | Answered(auth: Auth, ws: Socket)
    | Dropped(below: nat)

  datatype System = System(conn: Conn, pcs: map<nat, Pc>)

  /** The steps. The connector decides when to take them from what it reads; every order is allowed here. */
  datatype Act =
    | Connect(r: nat)
    | Dialled(r: nat, ok: bool)
    | Send(r: nat, auth: Auth)
    | Answer(r: nat, ok: bool)
    | GiveUp(r: nat)
    | Store(r: nat)
    | Drop(r: nat, refreshed: bool)
    | Clear(r: nat)
    | LoopFails(ws: Socket)
    | Invalidation(ws: Socket)
    | Close(stop: Socket)

  const START := System(FRESH, map[])

  function PcOf(s: System, r: nat): Pc {
    if r in s.pcs then s.pcs[r] else Idle
  }

  function At(s: System, conn: Conn, r: nat, pc: Pc): System {
    System(conn, s.pcs[r := pc])
  }

  /** The outcome of a step; one that its requester is not ready for changes nothing. */
  function Next(s: System, a: Act): System {
    var c := s.conn;
    match a
    case Connect(r) =>
      if PcOf(s, r).Idle? && c.ws.None? then At(s, c, r, Dialing) else s
    case Dialled(r, ok) =>
      if PcOf(s, r).Dialing? then At(s, if ok then Install(c) else c, r, Idle) else s
    case Send(r, auth) =>
      if PcOf(s, r).Idle? && c.ws.Some? then At(s, c, r, Awaiting(auth, c.ws.value)) else s
    case Answer(r, ok) => Answering(s, r, ok)
    case GiveUp(r) =>
      if PcOf(s, r).Awaiting? then At(s, MarkDisconnected(c, PcOf(s, r).ws), r, Idle) else s
    case Store(r) =>
      if PcOf(s, r).Answered? then At(s, StoreAuth(c, PcOf(s, r).auth), r, Idle) else s
    case Drop(r, refreshed) =>
      if PcOf(s, r).Idle? then At(s, Disconnect(c), r, if refreshed then Dropped(c.installed) else Idle) else s
    case Clear(r) =>
      if PcOf(s, r).Dropped? then At(s, ClearInvalidated(c, PcOf(s, r).below), r, Idle) else s
    case LoopFails(ws) => s.(conn := MarkDisconnected(c, ws))
    case Invalidation(ws) => s.(conn := InvalidateToken(c, ws))
    case Close(stop) => s.(conn := CloseStop(c, stop))
  }

  /** The broker grants the authentication on the socket that carried the request, or refuses it. */
  function Answering(s: System, r: nat, ok: bool): System {
    match PcOf(s, r)
    case Awaiting(auth, ws) =>
      if ok then At(s, s.conn.(granted := s.conn.granted + {(ws, auth)}), r, Answered(auth, ws)) else At(s, s.conn, r, Idle)
    case _ => s
  }

  function Run(acts: seq<Act>): System {
    if acts == [] then START else Next(Run(acts[..|acts| - 1]), acts[|acts| - 1])
  }

  // ---------------------------------------------------------------- what the steps achieve

  /** One requester dials when it finds no socket. */
  function Dialling(s: System, r: nat): System {
    Next(Next(s, Connect(r)), Dialled(r, true))
  }

  /** It then sends an authentication, is granted it and stores it. */
  function Authenticating(s: System, r: nat, auth: Auth): System {
    Next(Next(Next(s, Send(r, auth)), Answer(r, true)), Store(r))
  }

  lemma DiallingConnects(s: System, r: nat)
    requires PcOf(s, r).Idle? && s.conn.ws.None?
    ensures var c, s' := s.conn, Dialling(s, r);
      && PcOf(s', r).Idle? && s'.conn.ws == s'.conn.heartbeatStop == Some(c.installed) && s'.conn.installed == c.installed + 1
      && !s'.conn.appAuthenticated && s'.conn.authenticatedAccount == 0 && s'.conn.tokenInvalidated == c.tokenInvalidated
  {
  }

  lemma AuthenticatingStores(s: System, r: nat, auth: Auth)
    requires PcOf(s, r).Idle? && s.conn.ws.Some?
    ensures var c, s' := s.conn, Authenticating(s, r, auth);
      && PcOf(s', r).Idle? && s'.conn.ws == c.ws && s'.conn.granted == c.granted + {(c.ws.value, auth)}
      && s'.conn.appAuthenticated == (auth.App? || c.appAuthenticated)
      && s'.conn.authenticatedAccount == (if auth.Account? then auth.id else c.authenticatedAccount)
  {
    var s1 := Next(s, Send(r, auth));
    assert PcOf(s1, r) == Awaiting(auth, s.conn.ws.value);
    var s2 := Next(s1, Answer(r, true));
    assert PcOf(s2, r) == Answered(auth, s.conn.ws.value);
  }

  /** From any state without a socket, an undisturbed requester ends up with a new one on which the application and
      its account are authenticated, as granted. */
  lemma UndisturbedRequesterConnects(s: System, r: nat, id: int)
    requires PcOf(s, r).Idle? && s.conn.ws.None?
    ensures var ws, c := s.conn.installed, Authenticating(Authenticating(Dialling(s, r), r, App), r, Account(id)).conn;
      && c.ws == Some(ws) && c.appAuthenticated && c.authenticatedAccount == id
      && (ws, App) in c.granted && (ws, Account(id)) in c.granted
  {
    DiallingConnects(s, r);
    AuthenticatingStores(Dialling(s, r), r, App);
    AuthenticatingStores(Authenticating(Dialling(s, r), r, App), r, Account(id));
  }

  /** Whether a step ends the connection: a drop, or the loss of the current socket, noticed by its loop or by a
      request waiting on it. */
  ghost predicate EndsConnection(s: System, a: Act) {
    match a
    case Drop(r, _) => PcOf(s, r).Idle?
    case GiveUp(r) => PcOf(s, r).Awaiting? && s.conn.ws == Some(PcOf(s, r).ws)
    case LoopFails(ws) => s.conn.ws == Some(ws)
    case _ => false
  }

  /** Those steps, and no others, leave no socket and clear what was authenticated on it; its channel goes to the
      one who will close it. */
  lemma ConnectionEndsIff(s: System, a: Act)
    ensures var c, c' := s.conn, Next(s, a).conn;
      if EndsConnection(s, a) then
        && c'.ws.None? && c'.heartbeatStop.None? && !c'.appAuthenticated && c'.authenticatedAccount == 0
        && c'.closing == (if c.heartbeatStop.Some? then c.closing + multiset{c.heartbeatStop.value} else c.closing)
      else c.ws.Some? ==> c'.ws == c.ws && c'.heartbeatStop == c.heartbeatStop
  {
  }

  /** The token flag goes up exactly with an invalidation on the current socket and down exactly when a refresh
      ends; a channel is closed exactly by the one who took it. */
  lemma FlagAndChannelSteps(s: System, a: Act)
    ensures var c, c' := s.conn, Next(s, a).conn;
      && (c'.tokenInvalidated && !c.tokenInvalidated <==> !c.tokenInvalidated && a.Invalidation? && c.ws == Some(a.ws))
      && (!c'.tokenInvalidated && c.tokenInvalidated <==> c.tokenInvalidated && a.Clear? && PcOf(s, a.r).Dropped?)
      && (c'.closed == if a.Close? && a.stop in c.closing then c.closed + multiset{a.stop} else c.closed)
  {
  }

  // ---------------------------------------------------------------- heartbeat channels, any number of requesters

  /** The current socket's channel is open and in place; every other channel ever made was taken by exactly one
      closer, which has closed it or is about to. */
  ghost predicate ChannelsKept(c: Conn) {
    && c.heartbeatStop == c.ws
    && (c.ws.Some? ==> c.ws.value < c.installed)
    && forall n: nat :: c.closing[n] + c.closed[n] == if n < c.installed && c.ws != Some(n) then 1 else 0
  }

  lemma InstallKeepsChannels(c: Conn)
    requires ChannelsKept(c)
    ensures ChannelsKept(Install(c))
  {
  }

  lemma DisconnectKeepsChannels(c: Conn)
    requires ChannelsKept(c)
    ensures ChannelsKept(Disconnect(c))
  {
  }

  lemma ClosingKeepsChannels(c: Conn, stop: Socket)
    requires ChannelsKept(c)
    ensures ChannelsKept(CloseStop(c, stop))
  {
  }

  /** The steps that may drop the socket, and those that leave sockets and channels alone. */
  predicate Drops(a: Act) {
    a.GiveUp? || a.Drop? || a.LoopFails?
  }

  predicate Leaves(a: Act) {
    !Drops(a) && !a.Dialled? && !a.Close?
  }

  lemma LeavingKeepsSockets(s: System, a: Act)
    requires Leaves(a)
    ensures var c, c' := s.conn, Next(s, a).conn;
      && c'.ws == c.ws && c'.heartbeatStop == c.heartbeatStop && c'.installed == c.installed
      && c'.closing == c.closing && c'.closed == c.closed
  {
  }

  lemma DroppingDisconnects(s: System, a: Act)
    requires Drops(a)
    ensures Next(s, a).conn == s.conn || Next(s, a).conn == Disconnect(s.conn)
  {
  }

  lemma DiallingInstalls(s: System, a: Act)
    requires a.Dialled?
    ensures Next(s, a).conn == s.conn || Next(s, a).conn == Install(s.conn)
  {
  }

  lemma NextKeepsChannels(s: System, a: Act)
    requires ChannelsKept(s.conn)
    ensures ChannelsKept(Next(s, a).conn)
  {
    if Drops(a) {
      DroppingDisconnects(s, a);
      DisconnectKeepsChannels(s.conn);
    } else if a.Dialled? {
      DiallingInstalls(s, a);
      InstallKeepsChannels(s.conn);
    } else if a.Close? {
      ClosingKeepsChannels(s.conn, a.stop);
    } else {
      LeavingKeepsSockets(s, a);
    }
  }

  /** In every interleaving each stop channel is closed at most once, never while its socket is current, and
      none is lost: once its socket is gone, it is closed or in a closer's hands. */
  lemma {:induction false} EveryChannelIsClosedOnce(acts: seq<Act>)
    ensures ChannelsKept(Run(acts).conn)
  {
    if acts != [] {
      EveryChannelIsClosedOnce(acts[..|acts| - 1]);
      NextKeepsChannels(Run(acts[..|acts| - 1]), acts[|acts| - 1]);
    }
  }

  // ---------------------------------------------------------------- the token flag, any number of requesters

  /** A socket number that the drop of the first `below` sockets leaves alone. */
  predicate AtOrAfter(ws: Option<Socket>, below: nat) {
    ws.Some? ==> below <= ws.value
  }

  ghost predicate FlagIsNew(s: System) {
    && s.conn.floor <= s.conn.installed && AtOrAfter(s.conn.ws, s.conn.floor)
    && (s.conn.tokenInvalidated ==> s.conn.invalidatedBy.Some? && s.conn.floor <= s.conn.invalidatedBy.value < s.conn.installed)
    && forall r :: r in s.pcs && s.pcs[r].Dropped? ==> s.pcs[r].below <= s.conn.installed && AtOrAfter(s.conn.ws, s.pcs[r].below)
  }

  lemma DropKeepsFlagNew(s: System, a: Act)
    requires FlagIsNew(s) && Drops(a)
    ensures FlagIsNew(Next(s, a))
  {
  }

  lemma DialKeepsFlagNew(s: System, a: Act)
    requires FlagIsNew(s) && a.Dialled?
    ensures FlagIsNew(Next(s, a))
  {
  }

  lemma InvalidationKeepsFlagNew(s: System, a: Act)
    requires ChannelsKept(s.conn) && FlagIsNew(s) && (a.Invalidation? || a.Clear? || a.Close?)
    ensures FlagIsNew(Next(s, a))
  {
  }

  lemma RequestKeepsFlagNew(s: System, a: Act)
    requires FlagIsNew(s) && (a.Connect? || a.Send? || a.Store?)
    ensures FlagIsNew(Next(s, a))
  {
  }

  lemma AnswerKeepsFlagNew(s: System, a: Act)
    requires FlagIsNew(s) && a.Answer?
    ensures FlagIsNew(Next(s, a))
  {
  }

  lemma NextKeepsFlagNew(s: System, a: Act)
    requires ChannelsKept(s.conn) && FlagIsNew(s)
    ensures FlagIsNew(Next(s, a))
  {
    if Drops(a) {
      DropKeepsFlagNew(s, a);
    } else if a.Dialled? {
      DialKeepsFlagNew(s, a);
    } else if a.Invalidation? || a.Clear? || a.Close? {
      InvalidationKeepsFlagNew(s, a);
    } else if a.Answer? {
      AnswerKeepsFlagNew(s, a);
    } else {
      RequestKeepsFlagNew(s, a);
    }
  }

  /** In every interleaving a raised token flag was raised by a socket installed after the last completed
      refresh dropped its session: a replaced socket's late event never counts against the new token. */
  lemma {:induction false} OnlyALaterSocketInvalidates(acts: seq<Act>)
    ensures FlagIsNew(Run(acts))
  {
    if acts != [] {
      OnlyALaterSocketInvalidates(acts[..|acts| - 1]);
      EveryChannelIsClosedOnce(acts[..|acts| - 1]);
      NextKeepsFlagNew(Run(acts[..|acts| - 1]), acts[|acts| - 1]);
    }
  }

  // ---------------------------------------------------------------- the authentication flags

  /** A flag on a live socket means the broker granted that very socket. */
  predicate Authentic(c: Conn) {
    c.ws.Some? ==>
      && (c.appAuthenticated ==> (c.ws.value, App) in c.granted)
      && (c.authenticatedAccount != 0 ==> (c.ws.value, Account(c.authenticatedAccount)) in c.granted)
  }

  /** A requester between sending an authentication and recording its answer; account 0 is no account. */
  predicate InFlight(pc: Pc) {
    (pc.Awaiting? || pc.Answered?) && pc.auth != Account(0)
  }

  /** An authentication in flight is one of a socket that is still current, or already gone. */
  predicate OnCurrent(s: System, pc: Pc) {
    InFlight(pc) ==>
      && (s.conn.ws.None? || s.conn.ws == Some(pc.ws))
      && (pc.Answered? ==> (pc.ws, pc.auth) in s.conn.granted)
  }

  ghost predicate NoneStale(s: System) {
    Authentic(s.conn) && forall r :: r in s.pcs ==> OnCurrent(s, s.pcs[r])
  }

  /** The step does not put a socket in while an authentication is in flight. */
  ghost predicate Undisturbed(s: System, a: Act) {
    Next(s, a).conn.installed != s.conn.installed ==> forall r :: r in s.pcs ==> !InFlight(s.pcs[r])
  }

  ghost predicate Quiet(acts: seq<Act>) {
    forall i :: 0 <= i < |acts| ==> Undisturbed(Run(acts[..i]), acts[i])
  }

  lemma NextKeepsAuthentic(s: System, a: Act)
    requires NoneStale(s) && Undisturbed(s, a)
    ensures NoneStale(Next(s, a))
  {
    if a.Answer? {
      AnsweringKeepsAuthentic(s, a.r, a.ok);
    } else if a.GiveUp? || a.Drop? || a.LoopFails? {
      DroppingKeepsAuthentic(s, a);
    } else if a.Store? || a.Dialled? {
      RecordingKeepsAuthentic(s, a);
    } else {
      OtherStepKeepsAuthentic(s, a);
    }
  }

  lemma RecordingKeepsAuthentic(s: System, a: Act)
    requires NoneStale(s) && Undisturbed(s, a) && (a.Store? || a.Dialled?)
    ensures NoneStale(Next(s, a))
  {
  }

  lemma OtherStepKeepsAuthentic(s: System, a: Act)
    requires NoneStale(s) && (a.Connect? || a.Send? || a.Clear? || a.Invalidation? || a.Close?)
    ensures NoneStale(Next(s, a))
  {
  }

  lemma AnsweringKeepsAuthentic(s: System, r: nat, ok: bool)
    requires NoneStale(s)
    ensures NoneStale(Answering(s, r, ok))
  {
  }

  lemma DroppingKeepsAuthentic(s: System, a: Act)
    requires NoneStale(s) && (a.GiveUp? || a.Drop? || a.LoopFails?)
    ensures NoneStale(Next(s, a))
  {
  }

  lemma {:induction false} QuietRunsAreAuthentic(acts: seq<Act>)
    requires Quiet(acts)
    ensures NoneStale(Run(acts))
  {
    if acts != [] {
      var before := acts[..|acts| - 1];
      forall i | 0 <= i < |before|
        ensures Undisturbed(Run(before[..i]), before[i])
      {
        assert before[..i] == acts[..i];
      }
      QuietRunsAreAuthentic(before);
      NextKeepsAuthentic(Run(before), acts[|acts| - 1]);
    }
  }

  /** Only requester r acts, with the loops of every socket. */
  predicate Solo(acts: seq<Act>, r: nat) {
    forall i :: 0 <= i < |acts| ==> OfLoopOr(acts[i], r)
  }

  predicate OfLoopOr(a: Act, r: nat) {
    a.LoopFails? || a.Invalidation? || a.Close? || a.r == r
  }

  /** With one requester: nobody else is active, and once it has dropped its session no socket is current until
      it dials again, so the flag it clears was raised by a dropped socket. */
  ghost predicate Alone(s: System, r: nat) {
    && s.pcs.Keys <= {r}
    && (PcOf(s, r).Dropped? ==> s.conn.ws.None? && PcOf(s, r).below == s.conn.installed)
  }

  lemma NextKeepsAlone(s: System, a: Act, r: nat)
    requires Alone(s, r) && OfLoopOr(a, r)
    ensures Alone(Next(s, a), r)
  {
  }

  lemma {:induction false} SoloRunsAreAlone(acts: seq<Act>, r: nat)
    requires Solo(acts, r)
    ensures Alone(Run(acts), r)
  {
    if acts != [] {
      SoloRunsAreAlone(acts[..|acts| - 1], r);
      NextKeepsAlone(Run(acts[..|acts| - 1]), acts[|acts| - 1], r);
    }
  }

  /** One requester among any number of background loops: the flags on a live socket are that socket's own. */
  lemma SoloFlagsAreAuthentic(acts: seq<Act>, r: nat)
    requires Solo(acts, r)
    ensures Authentic(Run(acts).conn)
  {
    forall i | 0 <= i < |acts|
      ensures Undisturbed(Run(acts[..i]), acts[i])
    {
      SoloRunsAreAlone(acts[..i], r);
      AloneIsUndisturbed(Run(acts[..i]), acts[i], r);
    }
    QuietRunsAreAuthentic(acts);
  }

  lemma AloneIsUndisturbed(s: System, a: Act, r: nat)
    requires Alone(s, r) && OfLoopOr(a, r)
    ensures Undisturbed(s, a)
  {
  }

  /** One requester: the end of a refresh only ever clears a flag that a dropped socket raised. */
  lemma SoloRefreshErasesNothingNew(acts: seq<Act>, r: nat)
    requires Solo(acts, r) && PcOf(Run(acts), r).Dropped? && Run(acts).conn.tokenInvalidated
    ensures Run(acts).conn.invalidatedBy.Some? && Run(acts).conn.invalidatedBy.value < PcOf(Run(acts), r).below
  {
    SoloRunsAreAlone(acts, r);
    OnlyALaterSocketInvalidates(acts);
  }

  // ---------------------------------------------------------------- several requesters

  lemma RunStep(acts: seq<Act>, a: Act)
    ensures Run(acts + [a]) == Next(Run(acts), a)
  {
    assert (acts + [a])[..|acts|] == acts;
  }

  /** One requester has its answer, and its socket is lost before it records it. */
  lemma AnsweredOnALostSocket() returns (acts: seq<Act>)
    ensures Run(acts) == System(FRESH.(installed := 1, granted := {(0, App)}, closing := multiset{0}), map[0 := Answered(App, 0)])
  {
    acts := [];
    RunStep(acts, Connect(0));
    acts := acts + [Connect(0)];
    RunStep(acts, Dialled(0, true));
    acts := acts + [Dialled(0, true)];
    RunStep(acts, Send(0, App));
    acts := acts + [Send(0, App)];
    RunStep(acts, Answer(0, true));
    acts := acts + [Answer(0, true)];
    RunStep(acts, LoopFails(0));
    acts := acts + [LoopFails(0)];
  }

  /** Two requesters: one records its answer after the other replaced the socket, and the new socket passes for
      authenticated without ever having been. */
  lemma TwoRequestersForgeAFlag()
    ensures exists acts :: !Authentic(Run(acts).conn)
  {
    var a0 := AnsweredOnALostSocket();
    var a1 := a0 + [Connect(1)];
    var a2 := a1 + [Dialled(1, true)];
    RunStep(a0, Connect(1));
    RunStep(a1, Dialled(1, true));
    RunStep(a2, Store(0));
    assert !Authentic(Run(a2 + [Store(0)]).conn);
  }

  /** Every socket that was granted something, or is being asked for it, has been installed. */
  ghost predicate Known(s: System) {
    && (forall g :: g in s.conn.granted ==> g.0 < s.conn.installed)
    && (forall r :: r in s.pcs && (s.pcs[r].Awaiting? || s.pcs[r].Answered?) ==> s.pcs[r].ws < s.conn.installed)
  }

  lemma RequestKeepsKnown(s: System, a: Act)
    requires Known(s) && ChannelsKept(s.conn) && (a.Send? || a.Answer? || a.Dialled?)
    ensures Known(Next(s, a))
  {
  }

  lemma OtherStepKeepsKnown(s: System, a: Act)
    requires Known(s) && !a.Send? && !a.Answer? && !a.Dialled?
    ensures Known(Next(s, a))
  {
  }

  lemma NextKeepsKnown(s: System, a: Act)
    requires Known(s) && ChannelsKept(s.conn)
    ensures Known(Next(s, a))
  {
    if a.Send? || a.Answer? || a.Dialled? {
      RequestKeepsKnown(s, a);
    } else {
      OtherStepKeepsKnown(s, a);
    }
  }

  lemma {:induction false} SocketsAreKnown(acts: seq<Act>)
    ensures Known(Run(acts))
  {
    if acts != [] {
      SocketsAreKnown(acts[..|acts| - 1]);
      EveryChannelIsClosedOnce(acts[..|acts| - 1]);
      NextKeepsKnown(Run(acts[..|acts| - 1]), acts[|acts| - 1]);
    }
  }

  /** At most two steps of a requester, which record the answer it waits for. */
  predicate Settling(tail: seq<Act>) {
    |tail| <= 2 && forall i :: 0 <= i < |tail| ==> tail[i].Answer? || tail[i].Store?
  }

  /** A socket that goes in while an authentication is in flight soon passes for authenticated. */
  lemma DisturbanceForges(s: System, a: Act, r: nat)
    requires Known(s) && Next(s, a).conn.installed != s.conn.installed && InFlight(PcOf(s, r))
    ensures var s' := Next(s, a);
      if PcOf(s, r).Answered? then !Authentic(Next(s', Store(r)).conn)
      else !Authentic(Next(Next(s', Answer(r, true)), Store(r)).conn)
  {
    var s' := Next(s, a);
    var newcomer := s.conn.installed;
    assert s'.conn.ws == Some(newcomer) && PcOf(s', r) == PcOf(s, r) && s'.conn.granted == s.conn.granted;
    assert (newcomer, PcOf(s, r).auth) !in s.conn.granted;
  }

  lemma RunOn(acts: seq<Act>, tail: seq<Act>, c: Act)
    ensures Run(acts + (tail + [c])) == Next(Run(acts + tail), c)
  {
    assert acts + (tail + [c]) == acts + tail + [c];
    RunStep(acts + tail, c);
  }

  lemma RecordingInstallsNothing(s: System, a: Act)
    requires a.Answer? || a.Store?
    ensures Undisturbed(s, a)
  {
  }

  /** Settling puts no socket in. */
  lemma {:induction false} SettlingStaysQuiet(acts: seq<Act>, tail: seq<Act>)
    requires Quiet(acts) && Settling(tail)
    ensures Quiet(acts + tail)
  {
    forall i | 0 <= i < |acts + tail|
      ensures Undisturbed(Run((acts + tail)[..i]), (acts + tail)[i])
    {
      if i < |acts| {
        assert (acts + tail)[..i] == acts[..i];
      } else {
        assert (acts + tail)[i] == tail[i - |acts|];
        RecordingInstallsNothing(Run((acts + tail)[..i]), tail[i - |acts|]);
      }
    }
  }

  lemma QuietExtends(acts: seq<Act>, a: Act)
    requires Quiet(acts) && Undisturbed(Run(acts), a)
    ensures Quiet(acts + [a])
  {
    forall i | 0 <= i < |acts + [a]|
      ensures Undisturbed(Run((acts + [a])[..i]), (acts + [a])[i])
    {
      if i < |acts| {
        assert (acts + [a])[..i] == acts[..i];
      } else {
        assert (acts + [a])[..i] == acts;
      }
    }
  }

  lemma ForgingTail(acts: seq<Act>, a: Act, r: nat) returns (tail: seq<Act>)
    requires Next(Run(acts), a).conn.installed != Run(acts).conn.installed && InFlight(PcOf(Run(acts), r))
    ensures Settling(tail) && !Authentic(Run(acts + [a] + tail).conn)
  {
    SocketsAreKnown(acts);
    DisturbanceForges(Run(acts), a, r);
    RunStep(acts, a);
    if PcOf(Run(acts), r).Answered? {
      tail := [Store(r)];
      RunStep(acts + [a], Store(r));
    } else {
      tail := [Answer(r, true)] + [Store(r)];
      RunStep(acts + [a], Answer(r, true));
      RunOn(acts + [a], [Answer(r, true)], Store(r));
    }
  }

  lemma SettlingIsAuthentic(acts: seq<Act>, a: Act, tail: seq<Act>)
    requires Quiet(acts) && Undisturbed(Run(acts), a) && Settling(tail)
    ensures Authentic(Run(acts + [a] + tail).conn)
  {
    QuietExtends(acts, a);
    SettlingStaysQuiet(acts + [a], tail);
    QuietRunsAreAuthentic(acts + [a] + tail);
  }

  /** Any number of requesters, no socket put in too early so far: the next step keeps the flags true, whichever
      answers are recorded after it, exactly when it puts no socket in while an authentication is in flight. */
  lemma StepIsSafeIffUndisturbed(acts: seq<Act>, a: Act)
    requires Quiet(acts)
    ensures Undisturbed(Run(acts), a) <==> forall tail :: Settling(tail) ==> Authentic(Run(acts + [a] + tail).conn)
  {
    if Undisturbed(Run(acts), a) {
      forall tail | Settling(tail)
        ensures Authentic(Run(acts + [a] + tail).conn)
      {
        SettlingIsAuthentic(acts, a, tail);
      }
    } else {
      var r :| r in Run(acts).pcs && InFlight(Run(acts).pcs[r]);
      var tail := ForgingTail(acts, a, r);
    }
  }

  // ---------------------------------------------------------------- a lost invalidation

  /** The flag that r's refresh is about to clear was raised by a socket installed after its drop. */
  predicate LosesANewInvalidation(s: System, r: nat)
    requires PcOf(s, r).Dropped?
  {
    s.conn.tokenInvalidated && s.conn.invalidatedBy.Some? && PcOf(s, r).below <= s.conn.invalidatedBy.value
  }

  predicate OfLoop(a: Act) {
    a.LoopFails? || a.Invalidation? || a.Close?
  }

  predicate Loops(tail: seq<Act>) {
    forall i :: 0 <= i < |tail| ==> OfLoop(tail[i])
  }

  /** No step of the tail is r's. */
  predicate Without(tail: seq<Act>, r: nat) {
    forall i :: 0 <= i < |tail| ==> OfLoop(tail[i]) || tail[i].r != r
  }

  /** No socket is current in either, and the requesters and the token flag are the same. */
  predicate SameFlag(s: System, s': System) {
    && s.conn.ws.None? && s'.conn.ws.None? && s'.pcs == s.pcs
    && s'.conn.tokenInvalidated == s.conn.tokenInvalidated && s'.conn.invalidatedBy == s.conn.invalidatedBy
  }

  lemma LoopStepRaisesNothing(s: System, a: Act)
    requires s.conn.ws.None? && OfLoop(a)
    ensures SameFlag(s, Next(s, a))
  {
  }

  /** Steps taken from a state. */
  function Continue(s: System, tail: seq<Act>): System {
    if tail == [] then s else Next(Continue(s, tail[..|tail| - 1]), tail[|tail| - 1])
  }

  lemma {:induction false} RunContinues(acts: seq<Act>, tail: seq<Act>)
    ensures Run(acts + tail) == Continue(Run(acts), tail)
  {
    if tail == [] {
      assert acts + tail == acts;
    } else {
      var before, last := tail[..|tail| - 1], tail[|tail| - 1];
      RunContinues(acts, before);
      assert before + [last] == tail;
      RunOn(acts, before, last);
    }
  }

  /** Nothing the background loops do without a current socket touches the token flag. */
  lemma {:induction false} LoopsAloneRaiseNothing(s: System, tail: seq<Act>)
    requires Loops(tail) && s.conn.ws.None?
    ensures SameFlag(s, Continue(s, tail))
  {
    if tail != [] {
      LoopsAloneRaiseNothing(s, tail[..|tail| - 1]);
      LoopStepRaisesNothing(Continue(s, tail[..|tail| - 1]), tail[|tail| - 1]);
    }
  }

  /** One event of the current socket, and the pending refresh is about to clear it. */
  lemma CurrentSocketIsLost(acts: seq<Act>, r: nat)
    requires PcOf(Run(acts), r).Dropped? && Run(acts).conn.ws.Some?
    ensures var e := Invalidation(Run(acts).conn.ws.value);
      PcOf(Run(acts + [e]), r) == PcOf(Run(acts), r) && LosesANewInvalidation(Run(acts + [e]), r)
  {
    OnlyALaterSocketInvalidates(acts);
    assert Run(acts).pcs[r].Dropped?;
    RunStep(acts, Invalidation(Run(acts).conn.ws.value));
  }

  ghost predicate LosesAfter(acts: seq<Act>, tail: seq<Act>, r: nat) {
    PcOf(Run(acts + tail), r).Dropped? && LosesANewInvalidation(Run(acts + tail), r)
  }

  /** Left to the background loops, a refresh that has dropped its session comes to lose an event of a new
      socket exactly when it has lost one already or a socket is current; with none installed since the drop
      neither is the case. */
  lemma RefreshLosesIff(acts: seq<Act>, r: nat)
    requires PcOf(Run(acts), r).Dropped?
    ensures (exists tail :: Loops(tail) && LosesAfter(acts, tail, r)) <==> Run(acts).conn.ws.Some? || LosesANewInvalidation(Run(acts), r)
    ensures Run(acts).conn.installed == PcOf(Run(acts), r).below ==> Run(acts).conn.ws.None? && !LosesANewInvalidation(Run(acts), r)
  {
    var s := Run(acts);
    if s.conn.ws.Some? {
      CurrentSocketIsLost(acts, r);
      assert LosesAfter(acts, [Invalidation(s.conn.ws.value)], r);
    } else {
      forall tail | Loops(tail)
        ensures LosesAfter(acts, tail, r) <==> LosesANewInvalidation(s, r)
      {
        RunContinues(acts, tail);
        LoopsAloneRaiseNothing(s, tail);
      }
      assert LosesAfter(acts, [], r) <==> LosesANewInvalidation(s, r);
    }
    NothingNewToLose(acts, r);
  }

  lemma NothingNewToLose(acts: seq<Act>, r: nat)
    requires PcOf(Run(acts), r).Dropped?
    ensures Run(acts).conn.installed == PcOf(Run(acts), r).below ==> Run(acts).conn.ws.None? && !LosesANewInvalidation(Run(acts), r)
  {
    OnlyALaterSocketInvalidates(acts);
    EveryChannelIsClosedOnce(acts);
    assert Run(acts).pcs[r].Dropped?;
  }

  lemma {:induction false} SomeoneIdle(busy: set<nat>) returns (r: nat)
    ensures r !in busy && forall x :: x in busy ==> x < r
  {
    if busy == {} {
      r := 0;
    } else {
      var x :| x in busy;
      var rest := SomeoneIdle(busy - {x});
      r := if x < rest then rest else x + 1;
      forall y | y in busy
        ensures y < r
      {
        assert y == x || y in busy - {x};
      }
    }
  }

  /** With another requester about, it always can: that one dials, and the new socket's event is cleared. */
  lemma AnotherRequesterCanLoseIt(acts: seq<Act>, r: nat)
    requires PcOf(Run(acts), r).Dropped?
    ensures exists tail :: |tail| <= 3 && Without(tail, r) && LosesAfter(acts, tail, r)
  {
    if Run(acts).conn.ws.Some? {
      CurrentSocketIsLost(acts, r);
      var tail := [Invalidation(Run(acts).conn.ws.value)];
      assert LosesAfter(acts, tail, r);
    } else {
      var other := SomeoneIdle(Run(acts).pcs.Keys);
      var tail := DialledSocketIsLost(acts, r, other);
    }
  }

  lemma DialledSocketIsLost(acts: seq<Act>, r: nat, other: nat) returns (tail: seq<Act>)
    requires PcOf(Run(acts), r).Dropped? && Run(acts).conn.ws.None? && other !in Run(acts).pcs
    ensures |tail| == 3 && Without(tail, r) && LosesAfter(acts, tail, r)
  {
    var dial := [Connect(other)] + [Dialled(other, true)];
    DialPutsASocketIn(acts, r, other);
    CurrentSocketIsLost(acts + dial, r);
    var e := Invalidation(Run(acts + dial).conn.ws.value);
    tail := dial + [e];
    assert acts + dial + [e] == acts + tail;
  }

  lemma DialPutsASocketIn(acts: seq<Act>, r: nat, other: nat)
    requires PcOf(Run(acts), r).Dropped? && Run(acts).conn.ws.None? && other !in Run(acts).pcs
    ensures var s' := Run(acts + ([Connect(other)] + [Dialled(other, true)]));
      s'.conn.ws.Some? && PcOf(s', r) == PcOf(Run(acts), r)
  {
    RunStep(acts, Connect(other));
    RunOn(acts, [Connect(other)], Dialled(other, true));
  }

  lemma LostEventIsErased(s: System, r: nat)
    requires PcOf(s, r).Dropped? && LosesANewInvalidation(s, r)
    ensures !Next(s, Clear(r)).conn.tokenInvalidated && Next(s, Clear(r)).conn.ws == s.conn.ws
  {
  }

  /** The step that ends r's refresh clears the flag of the socket that is current. */
  predicate ErasesNewEvent(s: System, r: nat) {
    && PcOf(s, r).Dropped? && s.conn.ws.Some? && s.conn.tokenInvalidated && s.conn.invalidatedBy == s.conn.ws
    && Next(s, Clear(r)).conn.ws == s.conn.ws && !Next(s, Clear(r)).conn.tokenInvalidated
  }

  /** Two requesters: the end of one's refresh clears a flag that the other's new socket has just raised. */
  lemma TwoRequestersLoseAnInvalidation()
    ensures exists acts :: ErasesNewEvent(Run(acts), 0)
  {
    var dropped := DroppedBesideADial();
    RunStep(dropped, Dialled(1, true));
    RunStep(dropped + [Dialled(1, true)], Invalidation(0));
    var acts := dropped + [Dialled(1, true)] + [Invalidation(0)];
    LostEventIsErased(Run(acts), 0);
    assert ErasesNewEvent(Run(acts), 0);
  }

  lemma DroppedBesideADial() returns (acts: seq<Act>)
    ensures Run(acts) == System(FRESH, map[0 := Dropped(0), 1 := Dialing])
  {
    acts := [];
    RunStep(acts, Drop(0, true));
    acts := acts + [Drop(0, true)];
    RunStep(acts, Connect(1));
    acts := acts + [Connect(1)];
    assert map[0 := Dropped(0)][1 := Dialing] == map[0 := Dropped(0), 1 := Dialing];
  }
}
