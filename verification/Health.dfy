/**
 The health server of health/server.go. Watchers take from their one-slot channels
 without the lock, so a take may fall between the two halves (drain, put) of an update.
 */
module Health {
  import opened Prelude

  type Service = string

  datatype Status = UNKNOWN | SERVING | NOT_SERVING | SERVICE_UNKNOWN

  /** Where a Watch call is: in its select, inside stream.Send, or on its way out. */
  datatype Pc = Waiting | Sending(status: Status) | Ending

  /** A Watch call: its channel, lastSentStatus (which is set before the send), and what was sent. */
  datatype Watcher = Watcher(
    service: Service,
    registered: bool,
    channel: Option<Status>,
    lastSent: Option<Status>,
    pc: Pc,
    sent: seq<Status>)

  /** Who holds the lock: nobody; a loop over services that is between two of them; or
      setServingStatusLocked with watchers still to update, possibly one of them drained. */
  datatype Holder =
    | Free
    | Between(status: Status, rest: set<Service>)
    | Setting(service: Service, status: Status, todo: set<nat>, rest: set<Service>)
    | Drained(service: Service, status: Status, w: nat, todo: set<nat>, rest: set<Service>)

  datatype Server = Server(
    shutdown: bool,
    statusMap: map<Service, Status>,
    watchers: seq<Watcher>,
    holder: Holder)

  function Init(): Server {
    Server(false, map["" := SERVING], [], Free)
  }

  function Current(m: map<Service, Status>, service: Service): Status {
    if service in m then m[service] else SERVICE_UNKNOWN
  }

  function Registered(ws: seq<Watcher>, service: Service): set<nat> {
    set w | 0 <= w < |ws| && ws[w].registered && ws[w].service == service
  }

  /** Watch with a value taken from its channel: a status that was sent last is not sent again. */
  function Taken(w: Watcher, x: Status): Watcher {
    if w.lastSent == Some(x) then w.(channel := None)
    else w.(channel := None, lastSent := Some(x), pc := Sending(x))
  }

  /** stream.Send returned. */
  function SendReturned(w: Watcher, ok: bool): Watcher
    requires w.pc.Sending?
  {
    if ok then w.(pc := Waiting, sent := w.sent + [w.pc.status]) else w.(pc := Ending)
  }

  // ---------------------------------------------------------------- steps

  datatype Step =
    | SetCall(service: Service, status: Status)
    | ShutdownCall
    | ResumeCall
    | NextService(service: Service)
    | LoopDone
    | Drain(w: nat)
    | Put
    | ServiceDone
    | WatchStart(service: Service)
    | Take(w: nat)
    | SendReturns(w: nat, ok: bool)
    | ContextDone(w: nat)
    | WatchEnd(w: nat)

  predicate Enabled(s: Server, step: Step) {
    match step
    case SetCall(_, _) => s.holder.Free?
    case ShutdownCall => s.holder.Free?
    case ResumeCall => s.holder.Free?
    case NextService(service) => s.holder.Between? && service in s.holder.rest
    case LoopDone => s.holder.Between? && s.holder.rest == {}
    case Drain(w) => s.holder.Setting? && w in s.holder.todo && w < |s.watchers|
    case Put => s.holder.Drained? && s.holder.w < |s.watchers| && s.watchers[s.holder.w].channel.None?
    case ServiceDone => s.holder.Setting? && s.holder.todo == {}
    case WatchStart(_) => s.holder.Free?
    case Take(w) => w < |s.watchers| && s.watchers[w].pc.Waiting? && s.watchers[w].channel.Some?
    case SendReturns(w, _) => w < |s.watchers| && s.watchers[w].pc.Sending?
    case ContextDone(w) => w < |s.watchers| && s.watchers[w].pc.Waiting?
    case WatchEnd(w) => s.holder.Free? && w < |s.watchers| && s.watchers[w].pc.Ending?
  }

  /** The beginning of setServingStatusLocked. */
  function Begin(s: Server, service: Service, status: Status, rest: set<Service>): Server {
    s.(statusMap := s.statusMap[service := status],
       holder := Setting(service, status, Registered(s.watchers, service), rest))
  }

  function WithChannel(ws: seq<Watcher>, w: nat, c: Option<Status>): seq<Watcher>
    requires w < |ws|
  {
    ws[w := ws[w].(channel := c)]
  }

  function Apply(s: Server, step: Step): Server
    requires Enabled(s, step)
  {
    match step
    case SetCall(service, status) => if s.shutdown then s else Begin(s, service, status, {})
    case ShutdownCall => s.(shutdown := true, holder := Between(NOT_SERVING, s.statusMap.Keys))
    case ResumeCall => s.(shutdown := false, holder := Between(SERVING, s.statusMap.Keys))
    case NextService(service) => Begin(s, service, s.holder.status, s.holder.rest - {service})
    case LoopDone => s.(holder := Free)
    case Drain(w) =>
      var Setting(service, status, todo, rest) := s.holder;
      s.(watchers := WithChannel(s.watchers, w, None), holder := Drained(service, status, w, todo, rest))
    case Put =>
      var Drained(service, status, w, todo, rest) := s.holder;
      s.(watchers := WithChannel(s.watchers, w, Some(status)), holder := Setting(service, status, todo - {w}, rest))
    case ServiceDone => s.(holder := Between(s.holder.status, s.holder.rest))
    case WatchStart(service) =>
      s.(watchers := s.watchers + [Watcher(service, true, Some(Current(s.statusMap, service)), None, Waiting, [])])
    case Take(w) => s.(watchers := s.watchers[w := Taken(s.watchers[w], s.watchers[w].channel.value)])
    case SendReturns(w, ok) => s.(watchers := s.watchers[w := SendReturned(s.watchers[w], ok)])
    case ContextDone(w) => s.(watchers := s.watchers[w := s.watchers[w].(pc := Ending)])
    case WatchEnd(w) => s.(watchers := s.watchers[w := s.watchers[w].(registered := false)])
  }

  function Next(s: Server, step: Step): Server {
    if Enabled(s, step) then Apply(s, step) else s
  }

  function Run(s: Server, steps: seq<Step>): Server {
    if steps == [] then s else Next(Run(s, steps[..|steps| - 1]), steps[|steps| - 1])
  }

  // ---------------------------------------------------------------- invariant

  /** A full channel holds the current status; an empty one means it was the last taken. */
  ghost predicate UpToDate(m: map<Service, Status>, w: Watcher) {
    match w.channel
    case Some(x) => x == Current(m, w.service)
    case None => w.lastSent == Some(Current(m, w.service))
  }

  ghost predicate EndsIn(sent: seq<Status>, x: Status) {
    sent != [] && sent[|sent| - 1] == x
  }

  /** What was taken last has been sent or is being sent, and adjacent sent statuses differ. */
  ghost predicate SentOk(w: Watcher) {
    && (match w.pc
        case Waiting => if w.lastSent.None? then w.sent == [] else EndsIn(w.sent, w.lastSent.value)
        case Sending(x) => w.lastSent == Some(x) && !EndsIn(w.sent, x)
        case Ending => true)
    && (forall i :: 0 < i < |w.sent| ==> w.sent[i - 1] != w.sent[i])
  }

  function Todo(h: Holder): set<nat> {
    if h.Setting? || h.Drained? then h.todo else {}
  }

  function Rest(h: Holder): set<Service> {
    if h.Free? then {} else h.rest
  }

  ghost predicate HolderOk(s: Server) {
    && (s.holder.Setting? || s.holder.Drained? ==>
          && s.holder.service in s.statusMap && s.statusMap[s.holder.service] == s.holder.status
          && s.holder.service !in s.holder.rest
          && forall w :: w in s.holder.todo ==> w < |s.watchers| && s.watchers[w].service == s.holder.service)
    && (s.holder.Drained? ==> s.holder.w in s.holder.todo && s.holder.w < |s.watchers|
                              && s.watchers[s.holder.w].channel.None?)
  }

  ghost predicate ShutdownOk(s: Server) {
    s.shutdown ==>
      && (!s.holder.Free? ==> s.holder.status == NOT_SERVING)
      && forall v :: v in s.statusMap && v !in Rest(s.holder) ==> s.statusMap[v] == NOT_SERVING
  }

  ghost predicate WatchersOk(s: Server) {
    forall w :: 0 <= w < |s.watchers| ==>
      && SentOk(s.watchers[w])
      && (s.watchers[w].registered && w !in Todo(s.holder) ==> UpToDate(s.statusMap, s.watchers[w]))
  }

  ghost predicate Inv(s: Server) {
    HolderOk(s) && ShutdownOk(s) && WatchersOk(s)
  }

  lemma BeginKeeps(s: Server, service: Service, status: Status, rest: set<Service>)
    requires Inv(s) && (s.holder.Free? || s.holder.Between?)
    requires service !in rest && Rest(s.holder) <= rest + {service}
    requires s.shutdown ==> status == NOT_SERVING
    ensures Inv(Begin(s, service, status, rest))
  {
  }

  lemma ChannelKeeps(s: Server, w: nat)
    requires Inv(s) && Enabled(s, Drain(w))
    ensures Inv(Apply(s, Drain(w)))
  {
  }

  lemma PutKeeps(s: Server)
    requires Inv(s) && Enabled(s, Put)
    ensures Inv(Apply(s, Put))
  {
  }

  lemma TakeKeeps(s: Server, w: nat)
    requires Inv(s) && Enabled(s, Take(w))
    ensures Inv(Apply(s, Take(w)))
  {
  }

  lemma SendKeeps(s: Server, w: nat, ok: bool)
    requires Inv(s) && Enabled(s, SendReturns(w, ok))
    ensures Inv(Apply(s, SendReturns(w, ok)))
  {
    assert SentOk(SendReturned(s.watchers[w], ok));
  }

  lemma StepKeeps(s: Server, step: Step)
    requires Inv(s) && Enabled(s, step)
    ensures Inv(Apply(s, step))
  {
    match step
    case SetCall(service, status) => if !s.shutdown { BeginKeeps(s, service, status, {}); }
    case NextService(service) => BeginKeeps(s, service, s.holder.status, s.holder.rest - {service});
    case Drain(w) => ChannelKeeps(s, w);
    case Put => PutKeeps(s);
    case Take(w) => TakeKeeps(s, w);
    case SendReturns(w, ok) => SendKeeps(s, w, ok);
    case ContextDone(_) =>
    case ShutdownCall =>
    case ResumeCall =>
    case LoopDone =>
    case ServiceDone =>
    case WatchStart(_) =>
    case WatchEnd(_) =>
  }

  lemma {:induction false} RunKeeps(s: Server, steps: seq<Step>)
    requires Inv(s)
    ensures Inv(Run(s, steps))
  {
    if steps != [] {
      RunKeeps(s, steps[..|steps| - 1]);
      var before := Run(s, steps[..|steps| - 1]);
      if Enabled(before, steps[|steps| - 1]) {
        StepKeeps(before, steps[|steps| - 1]);
      }
    }
  }

  // ---------------------------------------------------------------- every run

  /** Outside the lock, every registered watcher has the current status waiting in its channel, or has an
      empty channel and took the current status last: that status has been sent, is being sent, or its Watch
      call is ending. */
  lemma {:induction false} WatcherSeesCurrent(steps: seq<Step>, w: nat)
    requires var s := Run(Init(), steps);
             s.holder.Free? && w < |s.watchers| && s.watchers[w].registered
    ensures var s := Run(Init(), steps);
            var x := s.watchers[w];
            var now := Current(s.statusMap, x.service);
            if x.channel.Some? then x.channel.value == now
            else match x.pc
              case Waiting => EndsIn(x.sent, now)
              case Sending(status) => status == now
              case Ending => x.lastSent == Some(now)
  {
    RunKeeps(Init(), steps);
    assert SentOk(Run(Init(), steps).watchers[w]);
  }

  /** The put never blocks, wherever the watchers' takes fall. */
  lemma {:induction false} PutNeverBlocks(steps: seq<Step>)
    requires Run(Init(), steps).holder.Drained?
    ensures var s := Run(Init(), steps);
            s.holder.w < |s.watchers| && s.watchers[s.holder.w].channel.None? && Enabled(s, Put)
  {
    RunKeeps(Init(), steps);
  }

  /** Two statuses sent one after the other to the same client differ. */
  lemma {:induction false} AdjacentSentDiffer(steps: seq<Step>, w: nat, i: nat)
    requires var s := Run(Init(), steps);
             w < |s.watchers| && 0 < i < |s.watchers[w].sent|
    ensures var sent := Run(Init(), steps).watchers[w].sent;
            sent[i - 1] != sent[i]
  {
    RunKeeps(Init(), steps);
    assert SentOk(Run(Init(), steps).watchers[w]);
  }

  /** While shut down every recorded status is NOT_SERVING. */
  lemma {:induction false} ShutdownMeansNotServing(steps: seq<Step>, service: Service)
    requires var s := Run(Init(), steps);
             s.shutdown && s.holder.Free? && service in s.statusMap
    ensures Run(Init(), steps).statusMap[service] == NOT_SERVING
  {
    RunKeeps(Init(), steps);
  }

  // ---------------------------------------------------------------- the statuses that were set

  /** What a call that got the lock says: whether the server is shut down, and the status of service v. */
  ghost function After(step: Step, v: Service, down: bool, word: Option<Status>): (r: (bool, Option<Status>)) {
    match step
    case SetCall(service, status) => (down, if service == v && !down then Some(status) else word)
    case ShutdownCall => (true, if word.Some? then Some(NOT_SERVING) else None)
    case ResumeCall => (false, if word.Some? then Some(SERVING) else None)
    case _ => (down, word)
  }

  /** Whether the server is shut down, and the status last set for v, None if there was none. */
  ghost function Said(steps: seq<Step>, v: Service): (r: (bool, Option<Status>)) {
    if steps == [] then (false, if v == "" then Some(SERVING) else None)
    else
      var before, step := steps[..|steps| - 1], steps[|steps| - 1];
      var r := Said(before, v);
      if Enabled(Run(Init(), before), step) then After(step, v, r.0, r.1) else r
  }

  /** A service the lock holder has still to visit will get the holder's status. */
  ghost predicate Follows(s: Server, v: Service, down: bool, word: Option<Status>) {
    && s.shutdown == down
    && (v in s.statusMap <==> word.Some?)
    && (v in Rest(s.holder) ==> word == Some(s.holder.status))
    && (v in s.statusMap && v !in Rest(s.holder) ==> word == Some(s.statusMap[v]))
  }

  lemma StepFollows(s: Server, step: Step, v: Service, down: bool, word: Option<Status>)
    requires HolderOk(s) && Enabled(s, step) && Follows(s, v, down, word)
    ensures var r := After(step, v, down, word); Follows(Apply(s, step), v, r.0, r.1)
  {
  }

  lemma {:induction false} RunFollows(steps: seq<Step>, v: Service)
    ensures var r := Said(steps, v); Follows(Run(Init(), steps), v, r.0, r.1)
  {
    if steps != [] {
      var before, step := steps[..|steps| - 1], steps[|steps| - 1];
      RunFollows(before, v);
      RunKeeps(Init(), before);
      if Enabled(Run(Init(), before), step) {
        var r := Said(before, v);
        StepFollows(Run(Init(), before), step, v, r.0, r.1);
      }
    }
  }

  /** Outside the lock a service has the status that was set last, NOT_SERVING or SERVING if a Shutdown or
      Resume came after that, and SERVICE_UNKNOWN if it was never set; Set calls while shut down do not count. */
  lemma {:induction false} CurrentIsLastSet(steps: seq<Step>, v: Service)
    requires Run(Init(), steps).holder.Free?
    ensures var s, r := Run(Init(), steps), Said(steps, v).1;
            && s.shutdown == Said(steps, v).0
            && (v in s.statusMap <==> r.Some?)
            && Current(s.statusMap, v) == if r.Some? then r.value else SERVICE_UNKNOWN
  {
    RunFollows(steps, v);
  }

  // ---------------------------------------------------------------- the object

  /** Every watcher of one of the services has exactly `status` in its channel; the others
      are as they were. */
  ghost predicate Notified(before: seq<Watcher>, now: seq<Watcher>, services: set<Service>, status: Status) {
    && |now| == |before|
    && forall w :: 0 <= w < |now| ==>
         now[w] == if before[w].registered && before[w].service in services
                   then before[w].(channel := Some(status)) else before[w]
  }

  class HealthServer {
    var shutdown: bool
    var statusMap: map<Service, Status>
    var watchers: seq<Watcher>

    constructor ()
      ensures !shutdown && statusMap == map["" := SERVING] && watchers == []
    {
      shutdown, statusMap, watchers := false, map["" := SERVING], [];
    }

    /** Check: a recorded status, or not found. */
    method Check(service: Service) returns (r: Option<Status>)
      ensures r == if service in statusMap then Some(statusMap[service]) else None
    {
      if service in statusMap {
        return Some(statusMap[service]);
      }
      return None;
    }

    /** setServingStatusLocked: afterwards every watcher of the service has exactly the new
        status in its channel, and no other watcher is touched. */
    method SetServingStatusLocked(service: Service, status: Status)
      modifies this`statusMap, this`watchers
      ensures statusMap == old(statusMap)[service := status]
      ensures Notified(old(watchers), watchers, {service}, status)
    {
      statusMap := statusMap[service := status];
      var todo := Registered(watchers, service);
      while todo != {}
        invariant statusMap == old(statusMap)[service := status]
        invariant todo <= Registered(old(watchers), service)
        invariant |watchers| == |old(watchers)|
        invariant forall w :: 0 <= w < |watchers| ==>
                    watchers[w] == if w in Registered(old(watchers), service) - todo
                                   then old(watchers)[w].(channel := Some(status)) else old(watchers)[w]
        decreases todo
      {
        var w :| w in todo;
        if watchers[w].channel.Some? {
          watchers := WithChannel(watchers, w, None);
        }
        watchers := WithChannel(watchers, w, Some(status));
        todo := todo - {w};
      }
    }

    method SetServingStatus(service: Service, status: Status)
      modifies this`statusMap, this`watchers
      ensures shutdown ==> statusMap == old(statusMap) && watchers == old(watchers)
      ensures !shutdown ==> statusMap == old(statusMap)[service := status] &&
                            Notified(old(watchers), watchers, {service}, status)
    {
      if shutdown {
        return;
      }
      SetServingStatusLocked(service, status);
    }

    /** The loop of Shutdown and Resume over all recorded services. */
    method SetAllLocked(status: Status)
      modifies this`statusMap, this`watchers
      ensures statusMap.Keys == old(statusMap).Keys
      ensures forall v :: v in statusMap ==> statusMap[v] == status
      ensures Notified(old(watchers), watchers, old(statusMap).Keys, status)
    {
      var todo := statusMap.Keys;
      while todo != {}
        invariant todo <= statusMap.Keys == old(statusMap).Keys
        invariant forall v :: v in statusMap && v !in todo ==> statusMap[v] == status
        invariant Notified(old(watchers), watchers, old(statusMap).Keys - todo, status)
        decreases todo
      {
        var v :| v in todo;
        SetServingStatusLocked(v, status);
        todo := todo - {v};
      }
    }

    method Shutdown()
      modifies this
      ensures shutdown && statusMap.Keys == old(statusMap).Keys
      ensures forall v :: v in statusMap ==> statusMap[v] == NOT_SERVING
      ensures Notified(old(watchers), watchers, old(statusMap).Keys, NOT_SERVING)
    {
      shutdown := true;
      SetAllLocked(NOT_SERVING);
    }

    method Resume()
      modifies this
      ensures !shutdown && statusMap.Keys == old(statusMap).Keys
      ensures forall v :: v in statusMap ==> statusMap[v] == SERVING
      ensures Notified(old(watchers), watchers, old(statusMap).Keys, SERVING)
    {
      shutdown := false;
      SetAllLocked(SERVING);
    }
  }
}
