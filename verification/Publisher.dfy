/**
 * packages/core/src/mcp/events.ts: `SubscribedResourceUpdatePublisher` tells one client which
 * resources have changed, of those it subscribes to. `State` and the functions on it are the
 * specification; class `Publisher` is proved against them.
 */
module Publishers {
  import opened Options

  const SERVER_EVENTS_URI: string := "bayma:///server/events"
  const SESSIONS_URI: string := "bayma:///sessions"

  datatype Type = Started | Closed | PressureWarning | Other

  datatype Event = Event(kind: Type, sessionId: Option<string>, execId: Option<string>)

  function SessionUri(session: string): string {
    "bayma:///session/" + session
  }

  function ExecUri(session: string, exec: string): string {
    SessionUri(session) + "/exec/" + exec
  }

  function ExecMessagesUri(session: string, exec: string): string {
    ExecUri(session, exec) + "/messages"
  }

  predicate IsSessionListMutation(event: Event) {
    event.kind == Started || event.kind == Closed
  }

  /** An id the event holds, which is none where it is empty. */
  predicate Holds(id: Option<string>) {
    id.Some? && id.value != ""
  }

  function ResourceUpdateUris(event: Event): set<string> {
    {SERVER_EVENTS_URI}
    + (if event.kind == PressureWarning then {SESSIONS_URI} else {})
    + (if !Holds(event.sessionId) then {} else {SESSIONS_URI, SessionUri(event.sessionId.value)})
    + (if !Holds(event.sessionId) || !Holds(event.execId) then {}
       else {ExecUri(event.sessionId.value, event.execId.value),
         ExecMessagesUri(event.sessionId.value, event.execId.value)})
  }

  /**
   * The resources an event tells of, each by its own URI: the server's events and sessions, a
   * session, its exec, the exec's messages.
   */
  predicate Concerns(event: Event, uri: string) {
    || uri == "bayma:///server/events"
    || (uri == "bayma:///sessions" && (event.kind == PressureWarning || Holds(event.sessionId)))
    || (Holds(event.sessionId) && uri == "bayma:///session/" + event.sessionId.value)
    || (Holds(event.sessionId) && Holds(event.execId)
        && (|| uri == "bayma:///session/" + event.sessionId.value + "/exec/" + event.execId.value
            || uri == "bayma:///session/" + event.sessionId.value + "/exec/" + event.execId.value + "/messages"))
  }

  lemma {:induction false} UrisAreConcerned(event: Event, uri: string)
    ensures uri in ResourceUpdateUris(event) <==> Concerns(event, uri)
  {
  }

  /**
   * Where a drain is: at its await of the list's sending, with what it then sends, at that of the
   * resources', or ended.
   */
  datatype Drain = Idle | SendingList(uris: set<string>) | SendingUris | Ended

  /** What is published, and the resources the client subscribes to then, and what is sent, in order. */
  datatype Entry = Published(event: Event, subscriptions: set<string>) | ListSent | UrisSent(uris: set<string>)

  /** Whether an entry tells a client of a resource, or of the list of them, that is to be sent for it. */
  predicate Tells(e: Entry, uri: string) {
    e.Published? && uri in e.subscriptions && Concerns(e.event, uri)
  }

  predicate TellsList(e: Entry) {
    e.Published? && (e.event.kind == Started || e.event.kind == Closed)
  }

  datatype State = State(pendingUris: set<string>, listChangePending: bool, drain: Drain, log: seq<Entry>)

  const START := State({}, false, Idle, [])

  predicate Pending(s: State) {
    s.listChangePending || s.pendingUris != {}
  }

  /** The drain's loop, from its head to its next await. */
  function Drained(s: State): State {
    if !Pending(s) then s.(drain := Ended)
    else
      var t := s.(listChangePending := false, pendingUris := {});
      if s.listChangePending then t.(drain := SendingList(s.pendingUris), log := s.log + [ListSent])
      else t.(drain := SendingUris, log := s.log + [UrisSent(s.pendingUris)])
  }

  function DrainStarted(s: State): State {
    if s.drain.Idle? then Drained(s) else s
  }

  function PublishedTo(s: State, event: Event, subscriptions: set<string>): State {
    var list, uris := IsSessionListMutation(event), ResourceUpdateUris(event) * subscriptions;
    DrainStarted(s.(listChangePending := s.listChangePending || list,
                    pendingUris := s.pendingUris + uris,
                    log := s.log + [Published(event, subscriptions)]))
  }

  /** The drain past its await, or, where it has ended, what `finally` does. */
  function Advanced(s: State): State {
    match s.drain
    case Idle => s
    case SendingList(uris) => s.(drain := SendingUris, log := s.log + [UrisSent(uris)])
    case SendingUris => Drained(s)
    case Ended => if Pending(s) then Drained(s) else s.(drain := Idle)
  }

  function Taken(s: State): set<string> {
    if s.drain.SendingList? then s.drain.uris else {}
  }

  /** Whether `uri` was published since it was last sent. */
  predicate Owed(log: seq<Entry>, uri: string) {
    if log == [] then false
    else
      var rest, last := log[..|log| - 1], log[|log| - 1];
      if last.Published? then Tells(last, uri) || Owed(rest, uri)
      else if last.UrisSent? then uri !in last.uris && Owed(rest, uri)
      else Owed(rest, uri)
  }

  predicate ListOwed(log: seq<Entry>) {
    if log == [] then false
    else
      var rest, last := log[..|log| - 1], log[|log| - 1];
      if last.Published? then TellsList(last) || ListOwed(rest) else last.UrisSent? && ListOwed(rest)
  }

  /** How often `uri` was published more than it was sent. */
  function Surplus(log: seq<Entry>, uri: string): int {
    if log == [] then 0
    else
      var last := log[|log| - 1];
      Surplus(log[..|log| - 1], uri) +
      match last
      case Published(_, _) => if Tells(last, uri) then 1 else 0
      case UrisSent(uris) => if uri in uris then -1 else 0
      case ListSent => 0
  }

  function ListSurplus(log: seq<Entry>): int {
    if log == [] then 0
    else
      var last := log[|log| - 1];
      ListSurplus(log[..|log| - 1]) +
      match last
      case Published(_, _) => if TellsList(last) then 1 else 0
      case UrisSent(_) => 0
      case ListSent => -1
  }

  function One(b: bool): nat {
    if b then 1 else 0
  }

  predicate Kept(s: State, uri: string) {
    && (Owed(s.log, uri) ==> uri in s.pendingUris || uri in Taken(s))
    && One(uri in s.pendingUris) + One(uri in Taken(s)) <= Surplus(s.log, uri)
  }

  /**
   * What a publish leaves owed is pending, or taken to be sent; what is pending or taken was
   * published and not sent for it; and while anything is pending, a drain runs or is about to
   * start again.
   */
  ghost predicate Inv(s: State) {
    && (Pending(s) ==> !s.drain.Idle?)
    && (forall uri :: Kept(s, uri))
    && (ListOwed(s.log) ==> s.listChangePending)
    && One(s.listChangePending) <= ListSurplus(s.log)
  }

  class Publisher {
    var pendingUris: set<string>
    var listChangePending: bool
    var drain: Drain
    var log: seq<Entry>

    function Now(): State
      reads this
    {
      State(pendingUris, listChangePending, drain, log)
    }

    constructor ()
      ensures Now() == START
    {
      pendingUris, listChangePending, drain, log := {}, false, Idle, [];
    }

    method Publish(event: Event, subscriptions: set<string>)
      modifies this
      ensures Now() == PublishedTo(old(Now()), event, subscriptions)
    {
      listChangePending := listChangePending || IsSessionListMutation(event);
      pendingUris := pendingUris + ResourceUpdateUris(event) * subscriptions;
      log := log + [Published(event, subscriptions)];
      StartDrain();
    }

    method StartDrain()
      modifies this
      ensures Now() == DrainStarted(old(Now()))
    {
      if drain.Idle? { DrainOn(); }
    }

    /** `drain`, from the head of its loop to its next await. */
    method DrainOn()
      modifies this
      ensures Now() == Drained(old(Now()))
    {
      if !listChangePending && pendingUris == {} {
        drain := Ended;
        return;
      }
      var publishListChange, uris := listChangePending, pendingUris;
      listChangePending := false;
      pendingUris := {};
      if publishListChange {
        drain := SendingList(uris);
        log := log + [ListSent];
      } else {
        drain := SendingUris;
        log := log + [UrisSent(uris)];
      }
    }

    /** The drain's await, or the drain itself, is over. */
    method Advance()
      modifies this
      ensures Now() == Advanced(old(Now()))
    {
      match drain {
        case Idle =>
        case SendingList(uris) =>
          drain := SendingUris;
          log := log + [UrisSent(uris)];
        case SendingUris => DrainOn();
        case Ended =>
          drain := Idle;
          if listChangePending || pendingUris != {} { StartDrain(); }
      }
    }
  }

  lemma {:induction false} Appended(log: seq<Entry>, e: Entry, uri: string)
    ensures Owed(log + [e], uri) == (if e.Published? then Tells(e, uri) || Owed(log, uri)
                                     else if e.UrisSent? then uri !in e.uris && Owed(log, uri) else Owed(log, uri))
    ensures Surplus(log + [e], uri) ==
      Surplus(log, uri) + if Tells(e, uri) then 1 else if e.UrisSent? && uri in e.uris then -1 else 0
    ensures ListOwed(log + [e]) ==
      (if e.Published? then TellsList(e) || ListOwed(log) else e.UrisSent? && ListOwed(log))
    ensures ListSurplus(log + [e]) == ListSurplus(log) + if e.ListSent? then -1 else if TellsList(e) then 1 else 0
  {
    assert (log + [e])[..|log|] == log;
  }

  /** The state past an await of the drain whose own loop is to go on. */
  ghost predicate Between(s: State) {
    Inv(s.(drain := Ended))
  }

  lemma {:induction false} DrainedKeeps(s: State)
    requires Between(s) && Taken(s) == {}
    ensures Inv(Drained(s))
  {
    forall uri ensures Kept(Drained(s), uri) {
      assert Kept(s.(drain := Ended), uri);
      Appended(s.log, ListSent, uri);
      Appended(s.log, UrisSent(s.pendingUris), uri);
    }
    Appended(s.log, ListSent, "");
    Appended(s.log, UrisSent(s.pendingUris), "");
  }

  lemma {:induction false} PublishedKeeps(s: State, event: Event, subscriptions: set<string>)
    requires Inv(s)
    ensures Inv(PublishedTo(s, event, subscriptions))
  {
    var entry := Published(event, subscriptions);
    var t := s.(listChangePending := s.listChangePending || IsSessionListMutation(event),
                pendingUris := s.pendingUris + ResourceUpdateUris(event) * subscriptions, log := s.log + [entry]);
    Appended(s.log, entry, "");
    forall uri ensures Kept(t, uri) {
      assert Kept(s, uri);
      Appended(s.log, entry, uri);
      UrisAreConcerned(event, uri);
    }
    if s.drain.Idle? {
      forall uri ensures Kept(t.(drain := Ended), uri) { assert Kept(t, uri); }
      assert Between(t);
      DrainedKeeps(t);
    }
  }

  lemma {:induction false} AdvancedKeeps(s: State)
    requires Inv(s)
    ensures Inv(Advanced(s))
  {
    if s.drain.SendingList? {
      Appended(s.log, UrisSent(s.drain.uris), "");
      forall uri ensures Kept(Advanced(s), uri) {
        assert Kept(s, uri);
        Appended(s.log, UrisSent(s.drain.uris), uri);
      }
    } else if s.drain.SendingUris? || (s.drain.Ended? && Pending(s)) {
      forall uri ensures Kept(s.(drain := Ended), uri) { assert Kept(s, uri); }
      DrainedKeeps(s);
    } else if s.drain.Ended? {
      forall uri ensures Kept(s.(drain := Idle), uri) { assert Kept(s, uri); }
    }
  }

  datatype Move = Publish(event: Event, subscriptions: set<string>) | Advance

  function Moved(s: State, move: Move): State {
    if move.Publish? then PublishedTo(s, move.event, move.subscriptions) else Advanced(s)
  }

  function After(s: State, moves: seq<Move>): State
    decreases |moves|
  {
    if moves == [] then s else After(Moved(s, moves[0]), moves[1..])
  }

  /** What is sent is awaited, one thing at a time: the list first, and then the resources taken with it. */
  lemma {:induction false} SendsAreAwaited(s: State, move: Move)
    ensures var t := Moved(s, move);
      && s.log <= t.log
      && (forall k | |s.log| <= k < |t.log| && !t.log[k].Published? ::
            k == |t.log| - 1 && if t.log[k].ListSent? then t.drain.SendingList? else t.drain == SendingUris)
      && (s.drain.SendingList? && move.Advance? ==> t.log == s.log + [UrisSent(s.drain.uris)])
  {
  }

  lemma {:induction false} InvKept(s: State, moves: seq<Move>)
    requires Inv(s)
    ensures Inv(After(s, moves))
    decreases |moves|
  {
    if moves != [] {
      if moves[0].Publish? {
        PublishedKeeps(s, moves[0].event, moves[0].subscriptions);
      } else {
        AdvancedKeeps(s);
      }
      InvKept(Moved(s, moves[0]), moves[1..]);
    }
  }

  /**
   * However publishes and drains interleave, and whatever the client subscribes to at each,
   * nothing published is lost and nothing is sent more often than published. `flush` returns
   * only where no drain is left: then nothing is pending, and all that was published was sent since.
   */
  lemma {:induction false} NothingIsLost(moves: seq<Move>)
    ensures Inv(After(START, moves))
    ensures var s := After(START, moves);
      s.drain.Idle? ==> !Pending(s) && !ListOwed(s.log) && forall uri :: !Owed(s.log, uri)
  {
    forall uri ensures Kept(START, uri) {}
    InvKept(START, moves);
    forall uri ensures After(START, moves).drain.Idle? ==> !Owed(After(START, moves).log, uri) {
      assert Kept(After(START, moves), uri);
    }
  }

  /** With nothing more published, a drain ends within five awaits, and so does a flush. */
  lemma {:induction false} DrainEnds(s: State)
    requires Inv(s)
    ensures After(s, [Advance, Advance, Advance, Advance, Advance]).drain.Idle?
  {
    var a, b := Advanced(s), Advanced(Advanced(s));
    var c := Advanced(b);
    var d := Advanced(c);
    var moves := [Advance, Advance, Advance, Advance, Advance];
    assert moves[1..] == [Advance, Advance, Advance, Advance] && moves[1..][1..] == [Advance, Advance, Advance];
    assert moves[1..][1..][1..] == [Advance, Advance] && moves[1..][1..][1..][1..] == [Advance] && [Advance][1..] == [];
    assert After(d, [Advance]) == After(Advanced(d), []);
  }
}
