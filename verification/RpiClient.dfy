/**
 The client of the DIF server: it scans the DIFs, subscribes to their states, folds the updates into a
 JSON document, and publishes a collective state after each command.
 */
module RpiClient {

  /** The JSON object of one DIF. */
  datatype Dif = Dif(id: nat, state: string, slc: int, gtc: int, bcid: int, bytes: int)

  datatype Option<T> = None | Some(value: T)

  /** `_jsroot`; the members are absent until they are first set. */
  datatype Json = Json(name: Option<string>, state: Option<string>, difs: seq<Dif>)

  datatype Kind = StateService | InfoService

  /** A subscription to one service of one DIF; `serial` stands for the address of the object. */
  datatype DimInfo = DimInfo(kind: Kind, serial: nat, dif: nat)

  datatype Message = StateIs(s: string) | Status(slc: int, gtc: int, bcid: int, bytes: int)

  /** The commands that end in a state check, and `destroy`, which publishes without one. */
  datatype Command = Initialise | RegisterDB | Configure | Start | Stop | Destroy

  function Target(c: Command): string {
    match c
    case Initialise => "INITIALISED"
    case RegisterDB => "DB_REGISTERED"
    case Configure => "CONFIGURED"
    case Start => "STARTED"
    case Stop => "STOPPED"
    case Destroy => "CREATED"
  }

  function Failure(c: Command): string {
    match c
    case Initialise => "INIT_FAILED"
    case RegisterDB => "DBREGISTER_FAILED"
    case Configure => "CONFIGURE_FAILED"
    case Start => "START_FAILED"
    case Stop => "STOP_FAILED"
    case Destroy => "CREATED"
  }

  // ---------- what the client does, event by event ----------

  /** The JSON object a DIF has when it is scanned; its state is whatever the receive buffer holds. */
  function NewDif(id: nat, diState: string): Dif {
    Dif(id, diState, 0, 0, 0, 0)
  }

  function WithMessage(d: Dif, id: nat, m: Message): Dif {
    if d.id != id then d
    else match m
      case StateIs(s) => d.(state := s)
      case Status(slc, gtc, bcid, bytes) => d.(slc := slc, gtc := gtc, bcid := bcid, bytes := bytes)
  }

  function Updated(difs: seq<Dif>, id: nat, m: Message): (r: seq<Dif>)
    ensures |r| == |difs|
    ensures forall i | 0 <= i < |difs| :: r[i] == WithMessage(difs[i], id, m)
  {
    if difs == [] then []
    else Updated(difs[..|difs| - 1], id, m) + [WithMessage(difs[|difs| - 1], id, m)]
  }

  function NewDifs(ids: seq<nat>, diState: string): (r: seq<Dif>)
    ensures |r| == |ids|
    ensures forall i | 0 <= i < |ids| :: r[i] == NewDif(ids[i], diState)
  {
    if ids == [] then []
    else NewDifs(ids[..|ids| - 1], diState) + [NewDif(ids[|ids| - 1], diState)]
  }

  /** `difs[i]["state"].asString().substr(0, stest.length()).compare(stest) == 0` for every DIF. */
  predicate AllIn(difs: seq<Dif>, stest: string) {
    forall i | 0 <= i < |difs| :: stest <= difs[i].state
  }

  /**
   What happens to the client: a scan that found `ids` starts, with an empty document, and finishes, when the list
   of DIFs enters the document after all subscriptions; a command; an update from a DIF, at any time.
   */
  datatype Event = ScanStarted(ids: seq<nat>) | ScanFinished | Commanded(c: Command) | Received(id: nat, m: Message)

  /** The client's data: `published` lists the states its service has shown, and between the two events of a scan it is `registering`. */
  datatype View = View(prefix: string, diState: string, state: string, vdif: seq<nat>, json: Json, published: seq<string>,
                       registering: bool)

  function Published(v: View, s: string): View {
    v.(state := s, json := v.json.(state := Some(s)), published := v.published + [s])
  }

  /** Scans and commands are calls, so none begins inside a scan. */
  predicate Enabled(v: View, e: Event) {
    match e
    case ScanStarted(_) => !v.registering
    case ScanFinished => v.registering
    case Commanded(_) => !v.registering
    case Received(_, _) => true
  }

  function After(v: View, e: Event): View {
    match e
    case ScanStarted(ids) =>
      Published(v.(vdif := ids), "SCANNED").(json := Json(Some(v.prefix), Some("SCANNED"), []), registering := true)
    case ScanFinished =>
      v.(json := v.json.(difs := NewDifs(v.vdif, v.diState)), registering := false)
    case Commanded(c) =>
      Published(v, if c.Destroy? || AllIn(v.json.difs, Target(c)) then Target(c) else Failure(c))
    case Received(id, m) =>
      v.(json := v.json.(difs := Updated(v.json.difs, id, m)))
  }

  function Run(v: View, events: seq<Event>): View {
    if events == [] then v else After(Run(v, events[..|events| - 1]), events[|events| - 1])
  }

  predicate Possible(v: View, events: seq<Event>) {
    events == [] ||
    (Possible(v, events[..|events| - 1]) && Enabled(Run(v, events[..|events| - 1]), events[|events| - 1]))
  }

  lemma OneMore(v: View, events: seq<Event>, e: Event)
    ensures Run(v, events + [e]) == After(Run(v, events), e)
    ensures Possible(v, events + [e]) <==> Possible(v, events) && Enabled(Run(v, events), e)
  {
    assert (events + [e])[..|events|] == events;
  }

  /** The client as it is built: nothing scanned, nothing in the document. */
  predicate Fresh(v: View) {
    v.state == "CREATED" && v.vdif == [] && v.json == Json(None, None, []) && v.published == ["CREATED"] && !v.registering
  }

  // ---------- what it should do, from the history alone ----------

  /** The ids of the last scan. */
  function ScannedIds(events: seq<Event>): seq<nat> {
    if events == [] then []
    else
      var e := events[|events| - 1];
      if e.ScanStarted? then e.ids else ScannedIds(events[..|events| - 1])
  }

  /** The last scan has not finished. */
  predicate Registering(events: seq<Event>) {
    if events == [] then false
    else
      var e := events[|events| - 1];
      e.ScanStarted? || (!e.ScanFinished? && Registering(events[..|events| - 1]))
  }

  /** The last state DIF `id` has sent since the last scan finished, or `otherwise` if it has sent none. */
  function LastState(events: seq<Event>, id: nat, otherwise: string): string {
    if events == [] then otherwise
    else
      var e := events[|events| - 1];
      if e.ScanStarted? || e.ScanFinished? then otherwise
      else if e.Received? && e.id == id && e.m.StateIs? then e.m.s
      else LastState(events[..|events| - 1], id, otherwise)
  }

  /** The entries are the ids in order, each with the state the history gives it. */
  predicate Lists(difs: seq<Dif>, ids: seq<nat>, events: seq<Event>, diState: string) {
    |difs| == |ids| &&
    forall i | 0 <= i < |ids| :: difs[i].id == ids[i] && difs[i].state == LastState(events, ids[i], diState)
  }

  /** What the history says of the data. */
  predicate Follows(r: View, events: seq<Event>, diState: string) {
    && r.vdif == ScannedIds(events) && r.diState == diState && r.registering == Registering(events)
    && if r.registering then r.json.difs == [] else Lists(r.json.difs, r.vdif, events, diState)
  }

  /**
   Over any run: the document lists the scanned ids, each once and in order, with the last states received
   since the scan finished; while a scan is not finished it lists nothing.
   */
  lemma {:induction false} DocumentFollowsHistory(v: View, events: seq<Event>)
    requires Fresh(v) && Possible(v, events)
    ensures Follows(Run(v, events), events, v.diState)
  {
    if events != [] {
      var init, e := events[..|events| - 1], events[|events| - 1];
      DocumentFollowsHistory(v, init);
      EventFollows(Run(v, init), init, e, v.diState);
      assert init + [e] == events;
    }
  }

  lemma EventFollows(r: View, events: seq<Event>, e: Event, diState: string)
    requires Follows(r, events, diState) && Enabled(r, e)
    ensures Follows(After(r, e), events + [e], diState)
  {
    assert (events + [e])[..|events|] == events;
    if e.Received? {
      forall i | 0 <= i < |r.json.difs|
        ensures Updated(r.json.difs, e.id, e.m)[i] == WithMessage(r.json.difs[i], e.id, e.m)
      {
      }
    }
  }

  /** Whatever is received while a scan is not finished is lost: it makes no difference to what the scan leaves. */
  lemma {:induction false} RegistrationLosesUpdates(v: View, events: seq<Event>, during: seq<Event>)
    requires Fresh(v) && Possible(v, events) && Registering(events)
    requires forall i | 0 <= i < |during| :: during[i].Received?
    ensures Run(v, events + during) == Run(v, events) && Possible(v, events + during)
  {
    if during == [] {
      assert events + during == events;
    } else {
      var init, e := during[..|during| - 1], during[|during| - 1];
      RegistrationLosesUpdates(v, events, init);
      DocumentFollowsHistory(v, events);
      OneMore(v, events + init, e);
      assert events + init + [e] == events + during;
    }
  }

  /** And only that: a state sent by a scanned DIF is in the document at once, exactly if no scan is unfinished. */
  lemma UpdateIsKept(v: View, events: seq<Event>, id: nat, s: string)
    requires Fresh(v) && Possible(v, events) && id in ScannedIds(events)
    ensures !Registering(events) <==>
            exists i :: 0 <= i < |Run(v, events + [Received(id, StateIs(s))]).json.difs| &&
                        Run(v, events + [Received(id, StateIs(s))]).json.difs[i].id == id &&
                        Run(v, events + [Received(id, StateIs(s))]).json.difs[i].state == s
  {
    var e := Received(id, StateIs(s));
    DocumentFollowsHistory(v, events);
    OneMore(v, events, e);
    var r := Run(v, events);
    if !Registering(events) {
      var i :| 0 <= i < |r.vdif| && r.vdif[i] == id;
      assert r.json.difs[i].id == id;
      assert After(r, e).json.difs[i] == WithMessage(r.json.difs[i], id, e.m);
    }
  }

  /** No scan and no command yet. */
  predicate OnlyUpdates(events: seq<Event>) {
    forall i | 0 <= i < |events| :: events[i].Received?
  }

  /**
   The state in the document is the client's state, as soon as one has been published there: none as long
   as there are only updates.  The client's state is the one published last.
   */
  predicate DocumentShows(v: View, onlyUpdates: bool) {
    && v.json.state == (if onlyUpdates then None else Some(v.state))
    && v.published != [] && v.published[|v.published| - 1] == v.state
    && !(v.registering && onlyUpdates)
  }

  lemma {:induction false} DocumentStateIsClientState(v: View, events: seq<Event>)
    requires Fresh(v) && Possible(v, events)
    ensures DocumentShows(Run(v, events), OnlyUpdates(events))
  {
    if events == [] {
    } else {
      var init, e := events[..|events| - 1], events[|events| - 1];
      DocumentStateIsClientState(v, init);
      EventShows(Run(v, init), e, OnlyUpdates(init));
      OnlyUpdatesNext(events);
    }
  }

  lemma EventShows(v: View, e: Event, onlyUpdates: bool)
    requires DocumentShows(v, onlyUpdates) && Enabled(v, e)
    ensures DocumentShows(After(v, e), onlyUpdates && e.Received?)
  {
    if e.Commanded? {
      assert After(v, e).json.state == Some(After(v, e).state);
    }
  }

  lemma OnlyUpdatesNext(events: seq<Event>)
    requires events != []
    ensures OnlyUpdates(events) <==> OnlyUpdates(events[..|events| - 1]) && events[|events| - 1].Received?
  {
  }

  /** Every scanned DIF has last sent a state that begins with `stest`. */
  predicate AllReached(events: seq<Event>, stest: string, diState: string) {
    forall id :: id in ScannedIds(events) ==> stest <= LastState(events, id, diState)
  }

  lemma ListedStatesReach(difs: seq<Dif>, events: seq<Event>, stest: string, diState: string)
    requires Lists(difs, ScannedIds(events), events, diState)
    ensures AllIn(difs, stest) <==> AllReached(events, stest, diState)
  {
    var ids := ScannedIds(events);
    forall i | 0 <= i < |ids|
      ensures difs[i].state == LastState(events, ids[i], diState)
    {
    }
    if AllReached(events, stest, diState) {
      assert forall i | 0 <= i < |ids| :: ids[i] in ids;
    }
  }

  /**
   Over any run: a command publishes its target state exactly when the state last received from every
   scanned DIF begins with it, and its failure state otherwise.
   */
  lemma CommandPublishesCollectiveState(v: View, events: seq<Event>, c: Command)
    requires Fresh(v) && Possible(v, events + [Commanded(c)]) && !c.Destroy?
    ensures var all := AllReached(events, Target(c), v.diState);
            var r := Run(v, events + [Commanded(c)]);
            && (r.state == Target(c) <==> all)
            && (r.state == Failure(c) <==> !all)
            && r.published == Run(v, events).published + [r.state]
  {
    OneMore(v, events, Commanded(c));
    DocumentFollowsHistory(v, events);
    ListedStatesReach(Run(v, events).json.difs, events, Target(c), v.diState);
    TargetIsNotFailure(c);
  }

  lemma TargetIsNotFailure(c: Command)
    requires !c.Destroy?
    ensures Target(c) != Failure(c)
  {
    if c.Initialise? {
      assert Target(c)[4] == 'I' && Failure(c)[4] == '_';
    } else {
      assert |Target(c)| != |Failure(c)|;
    }
  }

  // ---------- the same in the words of the protocol ----------

  /**
   Over any run, command by command: the state and the last state published are the word on the left if the last
   state received from every scanned DIF begins with it, and the word on the right otherwise.
   */
  lemma CommandInWords(v: View, events: seq<Event>, c: Command)
    requires Fresh(v) && Possible(v, events + [Commanded(c)])
    ensures var r := Run(v, events + [Commanded(c)]);
            && r.published != [] && r.state == r.published[|r.published| - 1] && r.json.state == Some(r.state)
            && match c
               case Initialise =>
                 r.state == if forall id :: id in ScannedIds(events) ==> "INITIALISED" <= LastState(events, id, v.diState)
                            then "INITIALISED" else "INIT_FAILED"
               case RegisterDB =>
                 r.state == if forall id :: id in ScannedIds(events) ==> "DB_REGISTERED" <= LastState(events, id, v.diState)
                            then "DB_REGISTERED" else "DBREGISTER_FAILED"
               case Configure =>
                 r.state == if forall id :: id in ScannedIds(events) ==> "CONFIGURED" <= LastState(events, id, v.diState)
                            then "CONFIGURED" else "CONFIGURE_FAILED"
               case Start =>
                 r.state == if forall id :: id in ScannedIds(events) ==> "STARTED" <= LastState(events, id, v.diState)
                            then "STARTED" else "START_FAILED"
               case Stop =>
                 r.state == if forall id :: id in ScannedIds(events) ==> "STOPPED" <= LastState(events, id, v.diState)
                            then "STOPPED" else "STOP_FAILED"
               case Destroy =>
                 r.state == "CREATED"
  {
    CommandState(v, events, c);
    CommandWords(c);
  }

  lemma CommandState(v: View, events: seq<Event>, c: Command)
    requires Fresh(v) && Possible(v, events + [Commanded(c)])
    ensures var r := Run(v, events + [Commanded(c)]);
            && r.state == (if c.Destroy? || AllReached(events, Target(c), v.diState) then Target(c) else Failure(c))
            && r.published != [] && r.state == r.published[|r.published| - 1] && r.json.state == Some(r.state)
  {
    OneMore(v, events, Commanded(c));
    DocumentFollowsHistory(v, events);
    ListedStatesReach(Run(v, events).json.difs, events, Target(c), v.diState);
  }

  lemma CommandWords(c: Command)
    ensures match c
            case Initialise => Target(c) == "INITIALISED" && Failure(c) == "INIT_FAILED"
            case RegisterDB => Target(c) == "DB_REGISTERED" && Failure(c) == "DBREGISTER_FAILED"
            case Configure => Target(c) == "CONFIGURED" && Failure(c) == "CONFIGURE_FAILED"
            case Start => Target(c) == "STARTED" && Failure(c) == "START_FAILED"
            case Stop => Target(c) == "STOPPED" && Failure(c) == "STOP_FAILED"
            case Destroy => Target(c) == "CREATED"
  {
  }

  /** A scan publishes SCANNED at once, and when it finishes the DIFs have the buffer's state and zero counters. */
  lemma ScanInWords(v: View, events: seq<Event>, ids: seq<nat>, i: nat)
    requires Fresh(v) && Possible(v, events + [ScanStarted(ids)]) && i < |ids|
    ensures var r := Run(v, events + [ScanStarted(ids)]);
            && r.state == "SCANNED" && r.published == Run(v, events).published + ["SCANNED"] && r.json.state == Some("SCANNED")
            && After(r, ScanFinished).json.difs[i] == Dif(ids[i], v.diState, 0, 0, 0, 0)
  {
    OneMore(v, events, ScanStarted(ids));
    DocumentFollowsHistory(v, events);
  }

  /** An update changes the entries with its id, in the members it brings, and nothing else. */
  lemma UpdateInWords(v: View, id: nat, m: Message, i: nat)
    requires i < |v.json.difs|
    ensures var d, r := v.json.difs[i], After(v, Received(id, m));
            && |r.json.difs| == |v.json.difs| && r == v.(json := v.json.(difs := r.json.difs))
            && (d.id != id ==> r.json.difs[i] == d)
            && (d.id == id && m.StateIs? ==> r.json.difs[i] == Dif(id, m.s, d.slc, d.gtc, d.bcid, d.bytes))
            && (d.id == id && m.Status? ==> r.json.difs[i] == Dif(id, d.state, m.slc, m.gtc, m.bcid, m.bytes))
  {
    assert Updated(v.json.difs, id, m)[i] == WithMessage(v.json.difs[i], id, m);
  }

  /** The last state of a DIF is that of the last of its state updates, if no scan has begun or finished after it. */
  lemma {:induction false} LastStateInHistory(events: seq<Event>, k: nat, id: nat, s: string, otherwise: string)
    requires k < |events| && events[k] == Received(id, StateIs(s))
    requires forall n | k < n < |events| ::
               !events[n].ScanStarted? && !events[n].ScanFinished? && (events[n].Received? && events[n].id == id ==> !events[n].m.StateIs?)
    ensures LastState(events, id, otherwise) == s
  {
    if k < |events| - 1 {
      LastStateInHistory(events[..|events| - 1], k, id, s, otherwise);
    }
  }

  /** Without one since the scan finished it is what the receive buffer held. */
  lemma {:induction false} NoStateInHistory(events: seq<Event>, k: nat, id: nat, otherwise: string)
    requires k < |events| && events[k].ScanFinished?
    requires forall n | k < n < |events| :: events[n].Received? && events[n].id == id ==> !events[n].m.StateIs?
    ensures LastState(events, id, otherwise) == otherwise
  {
    if k < |events| - 1 {
      NoStateInHistory(events[..|events| - 1], k, id, otherwise);
    }
  }

  /** The scanned ids are those of the last scan that started. */
  lemma {:induction false} ScannedIdsInHistory(events: seq<Event>, k: nat)
    requires k < |events| && events[k].ScanStarted? && forall n | k < n < |events| :: !events[n].ScanStarted?
    ensures ScannedIds(events) == events[k].ids
  {
    if k < |events| - 1 {
      ScannedIdsInHistory(events[..|events| - 1], k);
    }
  }

  // ---------- the client object ----------

  /** One subscription of the kind per id, in order, all of them different objects. */
  ghost predicate Subscribed(infos: seq<DimInfo>, kind: Kind, ids: seq<nat>, serials: nat) {
    && |infos| == |ids|
    && (forall i | 0 <= i < |infos| :: infos[i].kind == kind && infos[i].dif == ids[i] && infos[i].serial < serials)
    && (forall i, j | 0 <= i < j < |infos| :: infos[i].serial < infos[j].serial)
  }

  lemma SubscribedNext(infos: seq<DimInfo>, info: DimInfo, ids: seq<nat>, n: nat, serials: nat)
    requires n < |ids| && Subscribed(infos, info.kind, ids[..n], info.serial)
    requires info.dif == ids[n] && info.serial < serials
    ensures Subscribed(infos + [info], info.kind, ids[..n + 1], serials)
  {
    var more := infos + [info];
    forall i | 0 <= i < |more|
      ensures more[i].kind == info.kind && more[i].dif == ids[i] && more[i].serial < serials
    {
      assert i < n ==> more[i] == infos[i] && ids[..n][i] == ids[i];
    }
  }

  class Client {
    const prefix: string
    const diState: string
    var state: string
    var vdif: seq<nat>
    var vdifState: seq<DimInfo>
    var vdifStatus: seq<DimInfo>
    var json: Json
    /** The local `array` of `registerInfos`, which is not in the document yet. */
    var difs: seq<Dif>
    var serials: nat
    ghost var published: seq<string>
    ghost var registering: bool

    ghost function Abs(): View
      reads this
    {
      View(prefix, diState, state, vdif, json, published, registering)
    }

    /** Both kinds of subscriptions go as far as the registration; what it builds is kept apart from the document. */
    ghost predicate Valid()
      reads this
    {
      && |vdifState| <= |vdif| && (!registering ==> |vdifState| == |vdif|)
      && Subscribed(vdifState, StateService, vdif[..|vdifState|], serials)
      && Subscribed(vdifStatus, InfoService, vdif[..|vdifState|], serials)
      && (registering ==> json.difs == [] && difs == NewDifs(vdif[..|vdifState|], diState))
    }

    constructor (prefix: string, diState: string)
      ensures Valid() && Fresh(Abs()) && this.prefix == prefix && this.diState == diState
      ensures state == "CREATED" && published == ["CREATED"] && vdif == [] && json == Json(None, None, [])
    {
      this.prefix, this.diState := prefix, diState;
      state, vdif, vdifState, vdifStatus := "CREATED", [], [], [];
      json := Json(None, None, []);
      difs := [];
      serials := 0;
      published := ["CREATED"];
      registering := false;
    }

    method PublishState(s: string)
      requires Valid()
      modifies this`state, this`json, this`published
      ensures Valid() && Abs() == Published(old(Abs()), s)
    {
      state := s;
      published := published + [state];
      json := json.(state := Some(state));
    }

    /** `scan`, once the reply with the found ids has come, when no update arrives meanwhile. */
    method Scan(found: seq<nat>)
      requires Valid() && !registering
      modifies this
      ensures Valid() && Abs() == After(After(old(Abs()), ScanStarted(found)), ScanFinished)
    {
      StartScan(found);
      RegisterInfos();
    }

    /** `scan` up to the first subscription: new ids, no subscriptions, and a document without DIFs. */
    method StartScan(found: seq<nat>)
      requires Valid() && !registering
      modifies this
      ensures Valid() && Abs() == After(old(Abs()), ScanStarted(found)) && vdifState == []
    {
      vdif := [];
      var i := 0;
      while i < |found|
        invariant 0 <= i <= |found|
        invariant vdif == found[..i]
        invariant Abs() == old(Abs()).(vdif := vdif)
      {
        vdif := vdif + [found[i]];
        i := i + 1;
      }
      assert found[..i] == found;
      state := "SCANNED";
      published := published + [state];
      ClearInfos();
      json := Json(Some(prefix), Some(state), []);
      difs := [];
      registering := true;
    }

    method ClearInfos()
      modifies this`vdifState, this`vdifStatus
      ensures vdifState == [] && vdifStatus == []
    {
      vdifState := [];
      vdifStatus := [];
    }

    /** The rest of the scan: all subscriptions, and then the list of DIFs. */
    method RegisterInfos()
      requires Valid() && registering && vdifState == []
      modifies this
      ensures Valid() && Abs() == After(old(Abs()), ScanFinished)
    {
      while |vdifState| < |vdif|
        invariant Valid() && Abs() == old(Abs())
        decreases |vdif| - |vdifState|
      {
        Subscribe();
      }
      FinishScan();
    }

    /** One turn of the loop of `registerInfos`; updates may arrive before and after it. */
    method Subscribe()
      requires Valid() && registering && |vdifState| < |vdif|
      modifies this`vdifState, this`vdifStatus, this`difs, this`serials
      ensures Valid() && Abs() == old(Abs()) && |vdifState| == old(|vdifState|) + 1
    {
      ghost var n := |vdifState|;
      var dif := vdif[|vdifState|];
      var d, e := DimInfo(StateService, serials, dif), DimInfo(InfoService, serials, dif);
      SubscribedNext(vdifState, d, vdif, n, serials + 1);
      SubscribedNext(vdifStatus, e, vdif, n, serials + 1);
      assert vdif[..n + 1][..n] == vdif[..n];
      difs := difs + [NewDif(dif, diState)];
      vdifState := vdifState + [d];
      vdifStatus := vdifStatus + [e];
      serials := serials + 1;
    }

    /** The last statement of `registerInfos`. */
    method FinishScan()
      requires Valid() && registering && |vdifState| == |vdif|
      modifies this`json, this`registering
      ensures Valid() && Abs() == After(old(Abs()), ScanFinished)
    {
      assert vdif[..|vdif|] == vdif;
      json := json.(difs := difs);
      registering := false;
    }

    /**
     `infoHandler` for the subscription `curr`, which brings messages of its kind.  One that is in neither vector,
     being too old or too new, is passed over.
     */
    method InfoHandler(curr: DimInfo, m: Message)
      requires Valid() && (m.StateIs? <==> curr.kind == StateService)
      modifies this`json
      ensures Valid()
      ensures Abs() == if curr in vdifState + vdifStatus then After(old(Abs()), Received(curr.dif, m)) else old(Abs())
    {
      OfKind(vdifState, StateService, vdif[..|vdifState|], serials);
      OfKind(vdifStatus, InfoService, vdif[..|vdifState|], serials);
      HandleAmong(vdifState, curr, m);
      HandleAmong(vdifStatus, curr, m);
    }

    /** One of the two loops of `infoHandler`: over the subscriptions of one kind. */
    method HandleAmong(infos: seq<DimInfo>, curr: DimInfo, m: Message)
      modifies this`json
      ensures json == if curr in infos then old(json).(difs := Updated(old(json.difs), curr.dif, m)) else old(json)
    {
      var it := 0;
      while it < |infos|
        invariant 0 <= it <= |infos|
        invariant json == if curr in infos[..it] then old(json).(difs := Updated(old(json.difs), curr.dif, m)) else old(json)
      {
        if curr == infos[it] {
          UpdateDifs(curr.dif, m);
          UpdatedTwice(old(json.difs), curr.dif, m);
        }
        it := it + 1;
      }
    }

    /** The inner loop of `infoHandler`: every entry with the id is updated. */
    method UpdateDifs(difid: nat, m: Message)
      modifies this`json
      ensures json == old(json).(difs := Updated(old(json.difs), difid, m))
    {
      var i := 0;
      while i < |json.difs|
        invariant 0 <= i <= |json.difs| == |old(json.difs)|
        invariant json == old(json).(difs := json.difs)
        invariant forall k | 0 <= k < i :: json.difs[k] == WithMessage(old(json.difs)[k], difid, m)
        invariant forall k | i <= k < |json.difs| :: json.difs[k] == old(json.difs)[k]
      {
        if json.difs[i].id == difid {
          json := json.(difs := json.difs[i := WithMessage(json.difs[i], difid, m)]);
        }
        i := i + 1;
      }
      assert json.difs == Updated(old(json.difs), difid, m);
    }

    method CheckDifState(stest: string) returns (ok: bool)
      ensures ok <==> AllIn(json.difs, stest)
    {
      var i := 0;
      while i < |json.difs|
        invariant 0 <= i <= |json.difs|
        invariant forall k | 0 <= k < i :: stest <= json.difs[k].state
      {
        var s := json.difs[i].state;
        var start := if |stest| <= |s| then s[..|stest|] else s;
        if start != stest {
          return false;
        }
        i := i + 1;
      }
      ok := true;
    }

    method CheckRpiState(stest: string, sfail: string)
      requires Valid()
      modifies this`state, this`json, this`published
      ensures Valid() && Abs() == Published(old(Abs()), if AllIn(old(json.difs), stest) then stest else sfail)
    {
      var ok := CheckDifState(stest);
      if !ok {
        PublishState(sfail);
      } else {
        PublishState(stest);
      }
    }

    /** `initialise`, `registerDB`, `configure`, `start`, `stop` and `destroy`, once their reply has come. */
    method Command(c: Command)
      requires Valid() && !registering
      modifies this`state, this`json, this`published
      ensures Valid() && Abs() == After(old(Abs()), Commanded(c))
    {
      if c.Destroy? {
        PublishState("CREATED");
      } else {
        CheckRpiState(Target(c), Failure(c));
      }
    }
  }

  lemma OfKind(infos: seq<DimInfo>, kind: Kind, ids: seq<nat>, serials: nat)
    requires Subscribed(infos, kind, ids, serials)
    ensures forall info :: info in infos ==> info.kind == kind
  {
  }

  lemma UpdatedTwice(difs: seq<Dif>, id: nat, m: Message)
    ensures Updated(Updated(difs, id, m), id, m) == Updated(difs, id, m)
  {
  }
}
