/** "Latest read wins": how the payroll, expense and project pages keep a late answer from
    overwriting a newer one. Requests are numbered by tickets in the order they start, and a stored
    answer remembers the ticket it came from. */
module ReadLanes {
  import opened Common

  // ==== usePayrollRead: reads tagged with path and refresh count ====

  /** What a read is for; a null path reads nothing. */
  datatype Identity = Identity(path: Option<string>, refresh: nat)

  datatype Answer = Answer(of: Identity, ticket: nat)

  /** `tag` and `data` are the stored state, `current` what the last render asks for; the layout
      effect of a render runs after it, and `active` is the request whose controller is not aborted. */
  datatype Hook = Hook(current: Identity, effectDue: bool, tag: Option<Identity>, data: Option<Answer>,
                       active: Option<nat>, started: seq<Identity>)

  datatype HookEvent = Render(to: Identity) | Effect | Arrive(ticket: nat, ok: bool)

  /** A result or an error is stored unless the request's controller has been aborted. */
  function HookStep(h: Hook, e: HookEvent): Hook {
    match e
    case Render(to) => h.(current := to, effectDue := h.effectDue || to != h.current)
    case Effect =>
      if !h.effectDue then h
      else if h.current.path.None? then h.(effectDue := false, active := None)
      else h.(effectDue := false, tag := Some(h.current), data := None, active := Some(|h.started|), started := h.started + [h.current])
    case Arrive(t, ok) =>
      if h.active == Some(t) && t < |h.started|
      then h.(tag := Some(h.started[t]), data := if ok then Some(Answer(h.started[t], t)) else None)
      else h
  }

  function HookRun(h: Hook, events: seq<HookEvent>): Hook
    decreases events
  {
    if events == [] then h else HookRun(HookStep(h, events[0]), events[1..])
  }

  /** The data a render returns to the page. */
  function Yield(h: Hook): Option<Answer> {
    if h.current.path.Some? && h.tag == Some(h.current) then h.data else None
  }

  ghost predicate HookInv(h: Hook) {
    && (h.data.Some? ==> h.tag == Some(h.data.value.of) && h.data.value.ticket < |h.started|
                         && h.started[h.data.value.ticket] == h.data.value.of)
    && (h.active.Some? ==> h.active.value == |h.started| - 1 && |h.started| > 0)
    && (forall i | 0 <= i < |h.started| :: h.started[i].path.Some?)
    && (!h.effectDue && h.current.path.Some? && h.tag == Some(h.current) && h.data.Some? ==> h.data.value.ticket == |h.started| - 1)
    && (h.active.Some? && h.data.Some? ==> h.data.value.ticket == h.active.value)
    && (h.active.Some? && !h.effectDue ==> h.started[h.active.value] == h.current)
    && (h.active.None? && !h.effectDue ==> h.current.path.None?)
  }

  lemma {:induction false} HookRunKeepsInv(h: Hook, events: seq<HookEvent>)
    requires HookInv(h)
    ensures HookInv(HookRun(h, events))
    decreases events
  {
    if events != [] {
      HookRunKeepsInv(HookStep(h, events[0]), events[1..]);
    }
  }

  /** A first render: its effect is due. */
  function FirstRender(current: Identity): Hook {
    Hook(current, true, None, None, None, [])
  }

  /** From the first render on, over every run: a payroll read never yields data fetched under another
      path or refresh count, and once the effect of the render has run it yields nothing but the newest
      request's data. */
  lemma PayrollReadIsCurrent(first: Identity, events: seq<HookEvent>)
    ensures var h := HookRun(FirstRender(first), events);
      && (Yield(h).Some? ==> Yield(h).value.of == h.current)
      && (Yield(h).Some? && !h.effectDue ==> Yield(h).value.ticket == |h.started| - 1)
  {
    HookRunKeepsInv(FirstRender(first), events);
  }

  /** And the newest answer does get through: once the effect of a render with a path has run, the newest request
      is for what that render asks for, its answer is what the read yields from then on, its failure yields
      nothing, and no other answer changes anything. Without a path no answer does. */
  lemma NewestAnswerIsYielded(first: Identity, events: seq<HookEvent>, ticket: nat, ok: bool)
    ensures var h := HookRun(FirstRender(first), events);
      var last, h' := |h.started| - 1, HookStep(h, Arrive(ticket, ok));
      !h.effectDue ==>
        if h.current.path.None? then h' == h
        else
          && last >= 0 && h.started[last] == h.current
          && if ticket == last
             then Yield(h') == (if ok then Some(Answer(h.current, last)) else None) && h'.(tag := h.tag, data := h.data) == h
             else h' == h
  {
    HookRunKeepsInv(FirstRender(first), events);
  }

  /** The effect of a render with a path sends one request, for just what is rendered, and yields nothing until it
      is answered; without a path it sends none. */
  lemma EffectSendsWhatIsRendered(first: Identity, events: seq<HookEvent>)
    ensures var h := HookRun(FirstRender(first), events);
      var h' := HookStep(h, Effect);
      && !h'.effectDue && h'.current == h.current
      && h'.started == h.started + (if h.effectDue && h.current.path.Some? then [h.current] else [])
      && (if h.effectDue then Yield(h').None? else h' == h)
  {
  }

  /** The hook's variables; a request's controller is known by its ticket. */
  class PayrollRead {
    var identity: Identity
    var effectDue: bool
    var tag: Option<Identity>
    var data: Option<Answer>
    var controller: Option<nat>
    ghost var started: seq<Identity>

    ghost function Model(): Hook
      reads this
    {
      Hook(identity, effectDue, tag, data, controller, started)
    }

    constructor (first: Identity)
      ensures Model() == FirstRender(first)
    {
      identity, effectDue, tag, data, controller, started := first, true, None, None, None, [];
    }

    method Render(to: Identity)
      modifies this
      ensures Model() == HookStep(old(Model()), HookEvent.Render(to))
    {
      effectDue := effectDue || to != identity;
      identity := to;
    }

    /** The cleanup of the last effect, then this one; the caller sends the request it numbers. */
    method LayoutEffect(request: nat)
      requires request == |started|
      modifies this
      ensures Model() == HookStep(old(Model()), Effect)
    {
      if effectDue {
        effectDue := false;
        controller := None;
        if identity.path.Some? {
          controller := Some(request);
          tag, data := Some(identity), None;
          started := started + [identity];
        }
      }
    }

    /** The answer, or the failure, of a request made under `captured`. */
    method Settle(captured: Identity, request: nat, ok: bool)
      requires request < |started| && captured == started[request]
      modifies this
      ensures Model() == HookStep(old(Model()), Arrive(request, ok))
    {
      if controller == Some(request) {
        tag := Some(captured);
        data := if ok then Some(Answer(captured, request)) else None;
      }
    }
  }

  // ==== The expense page's claim list: a request counter, the rendered query, a lifetime flag ====

  datatype ClaimLoad = ClaimLoad(query: string, request: nat)

  /** Ticket n is the n-th load; `request` is what the counter showed when it started. */
  datatype Claims = Claims(alive: bool, requests: nat, currentQuery: string, loads: seq<ClaimLoad>,
                           shown: Option<nat>, failed: Option<nat>)

  datatype ClaimEvent = RenderQuery(query: string) | StartLoad(query: string) | ClaimsArrive(ticket: nat, ok: bool) | Leave

  function ClaimStep(c: Claims, e: ClaimEvent): Claims {
    match e
    case RenderQuery(query) => c.(currentQuery := query)
    case StartLoad(query) => c.(requests := c.requests + 1, loads := c.loads + [ClaimLoad(query, c.requests + 1)], shown := None, failed := None)
    case ClaimsArrive(t, ok) =>
      if t < |c.loads| && c.alive && c.loads[t].request == c.requests && c.loads[t].query == c.currentQuery
      then if ok then c.(shown := Some(t)) else c.(failed := Some(t))
      else c
    case Leave => c.(alive := false, requests := c.requests + 1)
  }

  function ClaimRun(c: Claims, events: seq<ClaimEvent>): Claims
    decreases events
  {
    if events == [] then c else ClaimRun(ClaimStep(c, events[0]), events[1..])
  }

  ghost predicate ClaimInv(c: Claims) {
    && (forall t | 0 <= t < |c.loads| :: c.loads[t].request <= c.requests)
    && (forall t, u | 0 <= t < u < |c.loads| :: c.loads[t].request < c.loads[u].request)
    && (c.alive && |c.loads| > 0 ==> c.loads[|c.loads| - 1].request == c.requests)
    && (c.shown.Some? ==> c.shown.value == |c.loads| - 1)
    && (c.failed.Some? ==> c.failed.value == |c.loads| - 1)
  }

  /** The newest load, of the query the page asks for now, on a page that is still there. */
  predicate Wanted(c: Claims, ticket: nat) {
    c.alive && ticket == |c.loads| - 1 && c.loads[ticket].query == c.currentQuery
  }

  lemma ArrivalIsWanted(c: Claims, ticket: nat, ok: bool)
    requires ClaimInv(c)
    ensures ClaimStep(c, ClaimsArrive(ticket, ok)) == (
      if !Wanted(c, ticket) then c else if ok then c.(shown := Some(ticket)) else c.(failed := Some(ticket)))
  {
    if ticket < |c.loads| - 1 {
      assert c.loads[ticket].request < c.loads[|c.loads| - 1].request;
    }
  }

  lemma ClaimStepKeepsInv(c: Claims, e: ClaimEvent)
    requires ClaimInv(c)
    ensures ClaimInv(ClaimStep(c, e))
  {
    if e.ClaimsArrive? {
      ArrivalIsWanted(c, e.ticket, e.ok);
      hide ClaimStep;
    }
  }

  lemma {:induction false} ClaimRunKeepsInv(c: Claims, events: seq<ClaimEvent>)
    requires ClaimInv(c)
    ensures ClaimInv(ClaimRun(c, events))
    decreases events
  {
    if events != [] {
      ClaimStepKeepsInv(c, events[0]);
      ClaimRunKeepsInv(ClaimStep(c, events[0]), events[1..]);
    }
  }

  /** What the list shows, data or an error, always came from the newest load. The answer of a load is stored, or
      its failure reported, exactly if it is the newest, of the query the page asks for now, on a page that is
      still there; a failure stores no data. A new load empties the list. */
  lemma ClaimListIsNewest(events: seq<ClaimEvent>, query: string, ticket: nat, ok: bool, next: string)
    ensures var c := ClaimRun(Claims(true, 0, query, [], None, None), events);
      && (c.shown.Some? ==> c.shown.value == |c.loads| - 1)
      && (c.failed.Some? ==> c.failed.value == |c.loads| - 1)
      && ClaimStep(c, ClaimsArrive(ticket, ok)) == (
           if !Wanted(c, ticket) then c else if ok then c.(shown := Some(ticket)) else c.(failed := Some(ticket)))
      && ClaimStep(c, StartLoad(next)).shown.None? && |ClaimStep(c, StartLoad(next)).loads| == |c.loads| + 1
      && (c.alive && next == c.currentQuery ==> Wanted(ClaimStep(c, StartLoad(next)), |c.loads|))
  {
    var c0 := Claims(true, 0, query, [], None, None);
    ClaimRunKeepsInv(c0, events);
    ArrivalIsWanted(ClaimRun(c0, events), ticket, ok);
  }

  /** The refs and the list of the page. */
  class ClaimList {
    var alive: bool
    var requests: nat
    var currentQuery: string
    var shown: Option<nat>
    var failed: Option<nat>
    ghost var loads: seq<ClaimLoad>

    ghost function Model(): Claims
      reads this
    {
      Claims(alive, requests, currentQuery, loads, shown, failed)
    }

    constructor (query: string)
      ensures Model() == Claims(true, 0, query, [], None, None)
    {
      alive, requests, currentQuery, shown, failed, loads := true, 0, query, None, None, [];
    }

    method Render(query: string)
      modifies this
      ensures Model() == ClaimStep(old(Model()), RenderQuery(query))
    {
      currentQuery := query;
    }

    /** loadClaims up to its await. */
    method LoadClaims(queryIdentity: string) returns (request: nat)
      modifies this
      ensures Model() == ClaimStep(old(Model()), StartLoad(queryIdentity)) && request == requests
    {
      requests := requests + 1;
      request := requests;
      shown, failed := None, None;
      loads := loads + [ClaimLoad(queryIdentity, request)];
    }

    /** loadClaims after its await, with what it captured before. */
    method StoreClaims(answer: nat, request: nat, queryIdentity: string, ok: bool)
      requires answer < |loads| && loads[answer] == ClaimLoad(queryIdentity, request)
      modifies this
      ensures Model() == ClaimStep(old(Model()), ClaimsArrive(answer, ok))
    {
      if alive && request == requests && currentQuery == queryIdentity {
        if ok {
          shown := Some(answer);
        } else {
          failed := Some(answer);
        }
      }
    }

    method Unmount()
      modifies this
      ensures Model() == ClaimStep(old(Model()), Leave)
    {
      alive := false;
      requests := requests + 1;
    }
  }

  // ==== The project page: five lanes with a sequence each, and a conflict refresh over all ====

  datatype Lane = Detail | Phases | Tasks | Assignments | Dependencies

  datatype Sequences = Sequences(detail: nat, phases: nat, tasks: nat, assignments: nat, dependencies: nat)

  function At(s: Sequences, lane: Lane): nat {
    match lane
    case Detail => s.detail
    case Phases => s.phases
    case Tasks => s.tasks
    case Assignments => s.assignments
    case Dependencies => s.dependencies
  }

  function Bump(s: Sequences, lane: Lane): Sequences {
    match lane
    case Detail => s.(detail := s.detail + 1)
    case Phases => s.(phases := s.phases + 1)
    case Tasks => s.(tasks := s.tasks + 1)
    case Assignments => s.(assignments := s.assignments + 1)
    case Dependencies => s.(dependencies := s.dependencies + 1)
  }

  function BumpAll(s: Sequences): Sequences {
    Sequences(s.detail + 1, s.phases + 1, s.tasks + 1, s.assignments + 1, s.dependencies + 1)
  }

  /** A load remembers its lane's sequence (with nothing selected it is not sent, and only clears the
      lane); a refresh remembers the detail sequence and the selection. The sequences it leaves behind
      in the other lanes are recorded here but never read by the code. */
  datatype Begun =
    | Load(lane: Lane, sequence: nat, sent: bool)
    | Refresh(sequences: Sequences, selection: string, withTasks: bool, withAssignments: bool)

  /** `shown` says from which ticket the answer in a lane comes. */
  datatype Project = Project(selection: string, sequences: Sequences, begun: seq<Begun>, shown: map<Lane, nat>)

  datatype ProjectEvent =
    | Select(selection: string, cleared: set<Lane>)
    | StartLane(lane: Lane, selected: bool)
    | StartRefresh(withTasks: bool, withAssignments: bool)
    | ProjectArrive(ticket: nat, ok: bool)

  /** The lanes a refresh stores into: tasks and assignments only if it asked for them. */
  predicate Covers(r: Begun, lane: Lane) {
    r.Refresh? && (lane == Tasks ==> r.withTasks) && (lane == Assignments ==> r.withAssignments)
  }

  function StoreRefresh(p: Project, ticket: nat): map<Lane, nat>
    requires ticket < |p.begun|
  {
    map lane: Lane | lane in {Detail, Phases, Tasks, Assignments, Dependencies} && (Covers(p.begun[ticket], lane) || lane in p.shown) ::
      if Covers(p.begun[ticket], lane) then ticket else p.shown[lane]
  }

  function ProjectStep(p: Project, e: ProjectEvent): Project {
    match e
    case Select(selection, cleared) => p.(selection := selection, shown := p.shown - cleared)
    case StartLane(lane, selected) =>
      var bumped := Bump(p.sequences, lane);
      Project(p.selection, bumped, p.begun + [Load(lane, At(bumped, lane), selected)], if selected then p.shown else p.shown - {lane})
    case StartRefresh(withTasks, withAssignments) =>
      var bumped := BumpAll(p.sequences);
      p.(sequences := bumped, begun := p.begun + [Refresh(bumped, p.selection, withTasks, withAssignments)])
    case ProjectArrive(t, ok) =>
      if t >= |p.begun| then p
      else
        match p.begun[t]
        case Load(lane, sequence, sent) =>
          if !sent || sequence != At(p.sequences, lane) then p
          else if ok then p.(shown := p.shown[lane := t])
          else if lane == Detail then p
          else p.(shown := p.shown - {lane})
        case Refresh(sequences, selection, _, _) =>
          if !ok || selection != p.selection || sequences.detail != p.sequences.detail then p
          else p.(shown := StoreRefresh(p, t))
  }

  function ProjectRun(p: Project, events: seq<ProjectEvent>): Project
    decreases events
  {
    if events == [] then p else ProjectRun(ProjectStep(p, events[0]), events[1..])
  }

  const OPENED := Project("", Sequences(0, 0, 0, 0, 0), [], map[])

  predicate Touches(b: Begun, lane: Lane) {
    b.Refresh? || b.lane == lane
  }

  /** The sequence it took in a lane it goes through. */
  function Mark(b: Begun, lane: Lane): nat
    requires Touches(b, lane)
  {
    if b.Load? then b.sequence else At(b.sequences, lane)
  }

  /** In each lane the marks grow with the tickets, up to the lane's sequence. */
  ghost predicate LaneInv(p: Project, lane: Lane) {
    && (forall t | 0 <= t < |p.begun| && Touches(p.begun[t], lane) :: 0 < Mark(p.begun[t], lane) <= At(p.sequences, lane))
    && (forall t, u | 0 <= t < u < |p.begun| && Touches(p.begun[t], lane) && Touches(p.begun[u], lane) ::
          Mark(p.begun[t], lane) < Mark(p.begun[u], lane))
    && (At(p.sequences, lane) > 0 ==>
          exists t :: 0 <= t < |p.begun| && Touches(p.begun[t], lane) && Mark(p.begun[t], lane) == At(p.sequences, lane))
  }

  lemma BeginKeepsInv(p: Project, p': Project, b: Begun, lane: Lane)
    requires LaneInv(p, lane) && p'.begun == p.begun + [b]
    requires At(p'.sequences, lane) == At(p.sequences, lane) + if Touches(b, lane) then 1 else 0
    requires Touches(b, lane) ==> Mark(b, lane) == At(p'.sequences, lane)
    ensures LaneInv(p', lane)
  {
    var n := |p.begun|;
    assert p'.begun[n] == b && forall t | 0 <= t < n :: p'.begun[t] == p.begun[t];
    if !Touches(b, lane) && At(p.sequences, lane) > 0 {
      var t :| 0 <= t < n && Touches(p.begun[t], lane) && Mark(p.begun[t], lane) == At(p.sequences, lane);
      assert Touches(p'.begun[t], lane);
    }
  }

  lemma ProjectStepKeepsInv(p: Project, e: ProjectEvent, lane: Lane)
    requires LaneInv(p, lane)
    ensures LaneInv(ProjectStep(p, e), lane)
  {
    var p' := ProjectStep(p, e);
    if e.StartLane? || e.StartRefresh? {
      BeginKeepsInv(p, p', p'.begun[|p.begun|], lane);
    } else {
      assert p'.begun == p.begun && p'.sequences == p.sequences;
    }
  }

  lemma {:induction false} ProjectRunKeepsInv(p: Project, events: seq<ProjectEvent>, lane: Lane)
    requires LaneInv(p, lane)
    ensures LaneInv(ProjectRun(p, events), lane)
    decreases events
  {
    if events != [] {
      ProjectStepKeepsInv(p, events[0], lane);
      ProjectRunKeepsInv(ProjectStep(p, events[0]), events[1..], lane);
    }
  }

  ghost predicate NewestInLane(p: Project, ticket: nat, lane: Lane) {
    forall u | ticket < u < |p.begun| :: !Touches(p.begun[u], lane)
  }

  lemma NewestIffCurrent(p: Project, ticket: nat, lane: Lane)
    requires LaneInv(p, lane) && ticket < |p.begun| && Touches(p.begun[ticket], lane)
    ensures NewestInLane(p, ticket, lane) <==> Mark(p.begun[ticket], lane) == At(p.sequences, lane)
  {
    if NewestInLane(p, ticket, lane) {
      var t :| 0 <= t < |p.begun| && Touches(p.begun[t], lane) && Mark(p.begun[t], lane) == At(p.sequences, lane);
      assert t <= ticket;
    }
  }

  /** After any run, a load's answer is stored in its lane, and its failure clears the lane, or in the detail lane
      changes nothing, exactly if the load was sent and nothing newer went through its lane; otherwise nothing
      happens. In particular nothing begun before a conflict refresh stores a result after it began. */
  lemma LoadStoresIffNewest(events: seq<ProjectEvent>, ticket: nat, ok: bool)
    ensures var p := ProjectRun(OPENED, events);
      ticket < |p.begun| && p.begun[ticket].Load? ==>
        var lane := p.begun[ticket].lane;
        && ProjectStep(p, ProjectArrive(ticket, ok)) == (
             if !p.begun[ticket].sent || !NewestInLane(p, ticket, lane) then p
             else if ok then p.(shown := p.shown[lane := ticket])
             else if lane == Detail then p
             else p.(shown := p.shown - {lane}))
        && (NewestInLane(p, ticket, lane) ==> forall u | ticket < u < |p.begun| :: !p.begun[u].Refresh?)
  {
    var p := ProjectRun(OPENED, events);
    if ticket < |p.begun| && p.begun[ticket].Load? {
      var lane := p.begun[ticket].lane;
      ProjectRunKeepsInv(OPENED, events, lane);
      NewestIffCurrent(p, ticket, lane);
      assert forall u | ticket < u < |p.begun| && p.begun[u].Refresh? :: Touches(p.begun[u], lane);
    }
  }

  /** Starting a load makes it the newest of its lane, and of no other; with nothing selected it only clears the
      lane. A refresh is the newest of every lane, and changes none before it is answered. */
  lemma BegunIsNewest(p: Project, lane: Lane, selected: bool, withTasks: bool, withAssignments: bool, other: Lane)
    ensures var load, refresh := ProjectStep(p, StartLane(lane, selected)), ProjectStep(p, StartRefresh(withTasks, withAssignments));
      && |load.begun| == |refresh.begun| == |p.begun| + 1
      && load.begun[..|p.begun|] == refresh.begun[..|p.begun|] == p.begun
      && load.begun[|p.begun|].Load? && load.begun[|p.begun|].lane == lane && load.begun[|p.begun|].sent == selected
      && load.selection == refresh.selection == p.selection && refresh.shown == p.shown
      && load.shown == (if selected then p.shown else p.shown - {lane})
      && At(load.sequences, other) == At(p.sequences, other) + (if other == lane then 1 else 0)
      && At(refresh.sequences, other) == At(p.sequences, other) + 1
      && refresh.begun[|p.begun|] == Refresh(refresh.sequences, p.selection, withTasks, withAssignments)
  {
  }

  /** A refresh's five answers are stored together if they came, the selection is the one it was made for, and no
      detail load or refresh came after it; otherwise nothing is. Tasks and assignments are stored if asked for,
      and the lanes not stored into stay. */
  lemma RefreshStoresTogether(events: seq<ProjectEvent>, ticket: nat, ok: bool, lane: Lane)
    ensures var p := ProjectRun(OPENED, events);
      var p' := ProjectStep(p, ProjectArrive(ticket, ok));
      ticket < |p.begun| && p.begun[ticket].Refresh? ==>
        var r := p.begun[ticket];
        if !ok || r.selection != p.selection || !NewestInLane(p, ticket, Detail) then p' == p
        else
          && p' == p.(shown := p'.shown)
          && (if lane.Detail? || lane.Phases? || lane.Dependencies? || (lane.Tasks? && r.withTasks) || (lane.Assignments? && r.withAssignments)
              then lane in p'.shown && p'.shown[lane] == ticket
              else if lane in p.shown then lane in p'.shown && p'.shown[lane] == p.shown[lane]
              else lane !in p'.shown)
  {
    var p := ProjectRun(OPENED, events);
    if ticket < |p.begun| && p.begun[ticket].Refresh? {
      ProjectRunKeepsInv(OPENED, events, Detail);
      NewestIffCurrent(p, ticket, Detail);
    }
  }

  /** A refresh checks the selection and the detail sequence only. So the detail it stores is always
      the newest, but what it stores in another lane is newest there exactly when the lane's own
      sequence is still the one the refresh set. */
  lemma RefreshStoresNewestIff(events: seq<ProjectEvent>, ticket: nat, lane: Lane)
    ensures var p := ProjectRun(OPENED, events);
      ticket < |p.begun| && Covers(p.begun[ticket], lane)
      && p.begun[ticket].selection == p.selection && p.begun[ticket].sequences.detail == p.sequences.detail ==>
        && lane in ProjectStep(p, ProjectArrive(ticket, true)).shown
        && ProjectStep(p, ProjectArrive(ticket, true)).shown[lane] == ticket
        && (NewestInLane(p, ticket, lane) <==> At(p.sequences, lane) == At(p.begun[ticket].sequences, lane))
        && (lane == Detail ==> NewestInLane(p, ticket, lane))
  {
    var p := ProjectRun(OPENED, events);
    ProjectRunKeepsInv(OPENED, events, lane);
    if ticket < |p.begun| && Covers(p.begun[ticket], lane) {
      NewestIffCurrent(p, ticket, lane);
    }
  }

  /** With any project selected, a page turned while a refresh is out: the phases loaded for the new page are
      overwritten by the refresh's older answer. */
  lemma RefreshMayOverwriteNewerPhases(selected: string)
    ensures exists events :: var p := ProjectRun(OPENED, events);
      && p.selection == selected && p.shown == map[Phases := 1]
      && ProjectStep(p, ProjectArrive(0, true)).shown == map[Detail := 0, Phases := 0, Dependencies := 0]
  {
    var p0 := Project(selected, Sequences(0, 0, 0, 0, 0), [], map[]);
    var ones := Sequences(1, 1, 1, 1, 1);
    var refresh, phases := Refresh(ones, selected, false, false), Load(Phases, 2, true);
    var p1 := Project(selected, ones, [refresh], map[]);
    var p2 := Project(selected, ones.(phases := 2), [refresh, phases], map[]);
    var p3 := p2.(shown := map[Phases := 1]);
    assert ProjectStep(OPENED, Select(selected, {})) == p0;
    assert ProjectStep(p0, StartRefresh(false, false)) == p1;
    assert ProjectStep(p1, StartLane(Phases, true)) == p2;
    assert ProjectStep(p2, ProjectArrive(1, true)) == p3;
    assert StoreRefresh(p3, 0) == map[Detail := 0, Phases := 0, Dependencies := 0];
    assert ProjectStep(p3, ProjectArrive(0, true)).shown == StoreRefresh(p3, 0);
    hide ProjectStep, StoreRefresh;
    var events := [Select(selected, {})];
    assert events[1..] == [] && ProjectRun(OPENED, events) == ProjectRun(p0, []);
    events := RunOneMore(events, p0, StartRefresh(false, false));
    events := RunOneMore(events, p1, StartLane(Phases, true));
    events := RunOneMore(events, p2, ProjectArrive(1, true));
  }

  lemma {:induction false} ProjectRunExtend(p: Project, events: seq<ProjectEvent>, e: ProjectEvent)
    ensures ProjectRun(p, events + [e]) == ProjectStep(ProjectRun(p, events), e)
    decreases events
  {
    hide ProjectStep;
    if events == [] {
      assert events + [e] == [e] && [e][1..] == [];
    } else {
      assert (events + [e])[1..] == events[1..] + [e];
      ProjectRunExtend(ProjectStep(p, events[0]), events[1..], e);
    }
  }

  lemma RunOneMore(events: seq<ProjectEvent>, p: Project, e: ProjectEvent) returns (longer: seq<ProjectEvent>)
    requires ProjectRun(OPENED, events) == p
    ensures ProjectRun(OPENED, longer) == ProjectStep(p, e)
  {
    ProjectRunExtend(OPENED, events, e);
    longer := events + [e];
  }

  /** The sequence refs of the page, its selection, and what each lane shows. */
  class ProjectReads {
    var selection: string
    var sequences: Sequences
    var shown: map<Lane, nat>
    ghost var begun: seq<Begun>

    ghost function Model(): Project
      reads this
    {
      Project(selection, sequences, begun, shown)
    }

    constructor ()
      ensures Model() == OPENED
    {
      selection, sequences, shown, begun := "", Sequences(0, 0, 0, 0, 0), map[], [];
    }

    /** A load of one lane up to its await; without a selection it clears the lane and stops. */
    method StartLoad(lane: Lane, selected: bool) returns (sequence: nat)
      modifies this
      ensures Model() == ProjectStep(old(Model()), StartLane(lane, selected)) && sequence == At(sequences, lane)
    {
      sequences := Bump(sequences, lane);
      sequence := At(sequences, lane);
      if !selected {
        shown := shown - {lane};
      }
      begun := begun + [Load(lane, sequence, selected)];
    }

    /** A load after its await; the detail lane keeps what it shows when a load fails. */
    method FinishLoad(answer: nat, lane: Lane, sequence: nat, ok: bool)
      requires answer < |begun| && begun[answer] == Load(lane, sequence, true)
      modifies this
      ensures Model() == ProjectStep(old(Model()), ProjectArrive(answer, ok))
    {
      if sequence == At(sequences, lane) {
        if ok {
          shown := shown[lane := answer];
        } else if lane != Detail {
          shown := shown - {lane};
        }
      }
    }

    /** refreshConflict up to its await. */
    method RefreshConflict(withTasks: bool, withAssignments: bool) returns (captured: string, sequence: nat)
      modifies this
      ensures Model() == ProjectStep(old(Model()), StartRefresh(withTasks, withAssignments))
      ensures captured == selection && sequence == sequences.detail
    {
      captured := selection;
      sequences := BumpAll(sequences);
      sequence := sequences.detail;
      begun := begun + [Refresh(sequences, selection, withTasks, withAssignments)];
    }

    /** refreshConflict after its await; all five answers came, or one failed. */
    method FinishRefresh(answer: nat, captured: string, sequence: nat, withTasks: bool, withAssignments: bool, ok: bool)
      requires answer < |begun| && begun[answer].Refresh?
      requires begun[answer] == Refresh(begun[answer].sequences, captured, withTasks, withAssignments)
      requires begun[answer].sequences.detail == sequence
      modifies this
      ensures Model() == ProjectStep(old(Model()), ProjectArrive(answer, ok))
    {
      if !ok || captured != selection || sequence != sequences.detail {
        return;
      }
      shown := shown[Detail := answer];
      shown := shown[Phases := answer];
      if withTasks {
        shown := shown[Tasks := answer];
      }
      if withAssignments {
        shown := shown[Assignments := answer];
      }
      shown := shown[Dependencies := answer];
      ghost var stored := StoreRefresh(old(Model()), answer);
      forall lane: Lane ensures lane in shown <==> lane in stored {
        match lane { case Detail => case Phases => case Tasks => case Assignments => case Dependencies => }
      }
      assert shown == stored;
    }
  }
}
