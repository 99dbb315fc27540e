/** The driver-station triple buffer (lib/ds/FRCDriverStation.cpp).

    A network thread overwrites one of three caches and hands it over through an atomic
    pointer; a refreshing thread takes what is waiting there; getters copy out of the cache
    being read, under the cache mutex.  Every atomic exchange, pointer store and field copy
    is one step, and a schedule is any sequence of steps of the three threads (a step of a
    thread that cannot move changes nothing). */
module TripleBuffer {

  import opened Wrappers

  /** `&caches[i]`. */
  datatype Slot = Slot0 | Slot1 | Slot2

  /** What the decoders write for joystick 0; each number stands for one decoded struct. */
  datatype Joystick = Joystick(axes: int, povs: int, buttons: int)

  /** A packet: the decoders return early, leaving the cache alone, when it carries no joystick. */
  datatype Packet = Packet(joystick: Option<Joystick>, word: nat)

  datatype Cache = Cache(stick: Joystick, word: nat)

  datatype Caches = Caches(c0: Cache, c1: Cache, c2: Cache) {
    function At(i: Slot): Cache {
      match i case Slot0 => c0 case Slot1 => c1 case Slot2 => c2
    }

    function Put(i: Slot, c: Cache): Caches {
      match i case Slot0 => this.(c0 := c) case Slot1 => this.(c1 := c) case Slot2 => this.(c2 := c)
    }
  }

  /** Bit 5 of the control word. */
  predicate DsAttached(word: nat) { word / 32 % 2 == 1 }

  datatype WriterPc =
    | WIdle
    | WAxes(p: Packet) | WPovs(p: Packet) | WButtons(p: Packet) | WWord(p: Packet)
    | WExchange(p: Packet)
    | WRotate(given: Slot, prev: Option<Slot>)
    | WPublish(given: Slot)

  datatype RefreshPc =
    | RIdle
    | RLoadWord(ptr: Slot)
    | RLock(word: nat)
    | RExchange(word: nat)
    | RAssign(word: nat, prev: Option<Slot>)
    | RZero(word: nat)
    | RNewest

  datatype GetterPc = GIdle | GAxes | GPovs(axes: int) | GButtons(axes: int, povs: int) | GDone(copy: Joystick)

  datatype Holder = Free | Refresher | Getter

  /** The role pointers: `currentRead`, `currentReadLocal`, the atomic `currentCache`,
      `lastGiven` and `cacheToUpdate`. */
  datatype Roles = Roles(read: Slot, readLocal: Slot, waiting: Option<Slot>, lastGiven: Slot, toUpdate: Slot)

  /** What has happened so far: `given` lists the packets handed over, `takes` counts the
      refreshes that took one, `takenAt` is the place in `given` of the last one taken, and
      `view` is what its cache held at that moment. */
  datatype History = History(given: seq<Packet>, takes: nat, takenAt: int, view: Joystick)

  datatype State = State(
    caches: Caches, roles: Roles, newestWord: nat, mutex: Holder,
    writer: WriterPc, refresh: RefreshPc, getter: GetterPc, past: History)

  datatype Action = Arrive(p: Packet) | WriterStep | RefreshStep | GetterStep

  function Init(): State {
    var zero := Cache(Joystick(0, 0, 0), 0);
    State(Caches(zero, zero, zero), Roles(Slot0, Slot0, None, Slot1, Slot2), 0, Free,
          WIdle, RIdle, GIdle, History([], 0, -1, zero.stick))
  }

  /** The copies `JoystickDataCache::Update` makes into one cache, one at a time. */
  function CopyAxes(c: Cache, p: Packet): Cache {
    if p.joystick.Some? then c.(stick := c.stick.(axes := p.joystick.value.axes)) else c
  }

  function CopyPovs(c: Cache, p: Packet): Cache {
    if p.joystick.Some? then c.(stick := c.stick.(povs := p.joystick.value.povs)) else c
  }

  function CopyButtons(c: Cache, p: Packet): Cache {
    if p.joystick.Some? then c.(stick := c.stick.(buttons := p.joystick.value.buttons)) else c
  }

  /** The caches while `newDataOccur` copies; no other writer step touches them. */
  function CopyStep(w: WriterPc, c: Cache): Cache {
    match w
    case WAxes(p) => CopyAxes(c, p)
    case WPovs(p) => CopyPovs(c, p)
    case WButtons(p) => CopyButtons(c, p)
    case WWord(p) => c.(word := p.word)
    case _ => c
  }

  function WriterRoles(w: WriterPc, r: Roles): Roles {
    match w
    case WExchange(_) => r.(waiting := Some(r.toUpdate))
    case WRotate(_, prev) =>
      if prev.None? then r.(toUpdate := r.readLocal, readLocal := r.lastGiven) else r.(toUpdate := prev.value)
    case WPublish(given) => r.(lastGiven := given)
    case _ => r
  }

  function WriterNext(w: WriterPc, r: Roles): WriterPc {
    match w
    case WIdle => WIdle
    case WAxes(p) => WPovs(p)
    case WPovs(p) => WButtons(p)
    case WButtons(p) => WWord(p)
    case WWord(p) => WExchange(p)
    case WExchange(_) => WRotate(r.toUpdate, r.waiting)
    case WRotate(given, _) => WPublish(given)
    case WPublish(_) => WIdle
  }

  function WriterStepFn(s: State): State {
    s.(caches := s.caches.Put(s.roles.toUpdate, CopyStep(s.writer, s.caches.At(s.roles.toUpdate))),
       roles := WriterRoles(s.writer, s.roles),
       writer := WriterNext(s.writer, s.roles),
       past := if s.writer.WExchange? then s.past.(given := s.past.given + [s.writer.p]) else s.past)
  }

  function RefreshStepFn(s: State): State {
    match s.refresh
    case RIdle => s.(refresh := RLoadWord(s.roles.lastGiven))
    case RLoadWord(ptr) => s.(refresh := RLock(s.caches.At(ptr).word))
    case RLock(word) => if s.mutex.Free? then s.(mutex := Refresher, refresh := RExchange(word)) else s
    case RExchange(word) =>
      s.(roles := s.roles.(waiting := None),
         refresh := RAssign(word, s.roles.waiting),
         past := if s.roles.waiting.None? then s.past
                 else s.past.(takes := s.past.takes + 1, takenAt := |s.past.given| - 1,
                              view := s.caches.At(s.roles.waiting.value).stick))
    case RAssign(word, prev) =>
      s.(roles := if prev.Some? then s.roles.(read := prev.value) else s.roles, refresh := RZero(word))
    case RZero(word) =>
      var c := s.caches.At(s.roles.read);
      s.(caches := if DsAttached(word) then s.caches else s.caches.Put(s.roles.read, c.(word := 0)), refresh := RNewest)
    case RNewest =>
      s.(newestWord := s.caches.At(s.roles.read).word, mutex := Free, refresh := RIdle)
  }

  /** `HAL_GetAllJoystickData`: three copies under the mutex. */
  function GetterStepFn(s: State): State {
    var here := s.caches.At(s.roles.read).stick;
    match s.getter
    case GIdle => if s.mutex.Free? then s.(mutex := Getter, getter := GAxes) else s
    case GAxes => s.(getter := GPovs(here.axes))
    case GPovs(a) => s.(getter := GButtons(a, here.povs))
    case GButtons(a, p) => s.(getter := GDone(Joystick(a, p, here.buttons)))
    case GDone(_) => s.(mutex := Free, getter := GIdle)
  }

  function Step(s: State, a: Action): State {
    match a
    case Arrive(p) => if s.writer.WIdle? then s.(writer := WAxes(p)) else s
    case WriterStep => WriterStepFn(s)
    case RefreshStep => RefreshStepFn(s)
    case GetterStep => GetterStepFn(s)
  }

  function Exec(s: State, schedule: seq<Action>): State
    decreases |schedule|
  {
    if schedule == [] then s else Exec(Step(s, schedule[0]), schedule[1..])
  }

  // ---------------------------------------------------------------------------------------
  // The rotation.  Between the exchange and the last pointer store the role pointers lag
  // behind; these are the roles once the writer has finished storing them.

  function Given(r: Roles, w: WriterPc): Slot {
    if w.WRotate? || w.WPublish? then w.given else r.lastGiven
  }

  function Spare(r: Roles, w: WriterPc): Slot {
    if w.WRotate? then if w.prev.None? then r.readLocal else w.prev.value else r.toUpdate
  }

  function ReadLocal(r: Roles, w: WriterPc): Slot {
    if w.WRotate? && w.prev.None? then r.lastGiven else r.readLocal
  }

  /** The cache getters will see: a refresh that has taken one and not stored it yet holds the
      mutex, so nobody can look at `currentRead` in between. */
  function Reading(r: Roles, f: RefreshPc): Slot {
    if f.RAssign? && f.prev.Some? then f.prev.value else r.read
  }

  /** True when the joystick fields are those of `p`, which leaves them alone if it has none. */
  predicate Shows(stick: Joystick, p: Packet) {
    p.joystick.Some? ==> stick == p.joystick.value
  }

  predicate Holds(c: Cache, p: Packet) {
    Shows(c.stick, p) && (c.word == p.word || c.word == 0)
  }

  /** The three roles are always three different caches, and which of them is being read
      depends only on whether the last packet given has been taken. */
  ghost predicate Rotation(r: Roles, w: WriterPc, f: RefreshPc, h: History) {
    var g, u, l := Given(r, w), Spare(r, w), ReadLocal(r, w);
    && g != u && g != l && u != l
    && (r.waiting.Some? ==> r.waiting.value == g)
    && (w.WRotate? ==> r.toUpdate == g)
    && (h.takes > 0 ==>
          && Reading(r, f) == (if r.waiting.Some? then l else g)
          && 0 <= h.takenAt < |h.given|
          && (r.waiting.None? <==> h.takenAt == |h.given| - 1))
    && (h.takes == 0 ==>
          && Reading(r, f) == r.read == Slot0
          && (if |h.given| == 0 then r.waiting.None? && g == Slot1 && u == Slot2
              else r.waiting.Some? && l == Slot1))
  }

  predicate InRefresh(f: RefreshPc) { f.RExchange? || f.RAssign? || f.RZero? || f.RNewest? }

  ghost predicate Locking(m: Holder, f: RefreshPc, g: GetterPc) {
    (m.Refresher? <==> InRefresh(f)) && (m.Getter? <==> !g.GIdle?)
  }

  /** How far the writer has got with the packet it is copying. */
  ghost predicate Copying(w: WriterPc, c: Cache) {
    match w
    case WPovs(p) => p.joystick.Some? ==> c.stick.axes == p.joystick.value.axes
    case WButtons(p) =>
      p.joystick.Some? ==> c.stick.axes == p.joystick.value.axes && c.stick.povs == p.joystick.value.povs
    case WWord(p) => Shows(c.stick, p)
    case WExchange(p) => Holds(c, p)
    case _ => true
  }

  /** The cache read since the last take still shows what was taken, and so do partial copies. */
  ghost predicate Stable(c: Cache, f: RefreshPc, g: GetterPc, newestWord: nat, h: History)
    requires 0 <= h.takenAt < |h.given|
  {
    && c.stick == h.view && Holds(c, h.given[h.takenAt])
    && (!InRefresh(f) || f.RExchange? ==> newestWord == c.word)
    && (g.GPovs? ==> g.axes == h.view.axes)
    && (g.GButtons? ==> g.axes == h.view.axes && g.povs == h.view.povs)
    && (g.GDone? ==> g.copy == h.view)
  }

  ghost predicate Pointers(s: State) {
    Rotation(s.roles, s.writer, s.refresh, s.past) && Locking(s.mutex, s.refresh, s.getter)
  }

  ghost predicate Contents(s: State) {
    && Copying(s.writer, s.caches.At(s.roles.toUpdate))
    && (|s.past.given| > 0 ==> Holds(s.caches.At(Given(s.roles, s.writer)), s.past.given[|s.past.given| - 1]))
    && (s.past.takes > 0 && 0 <= s.past.takenAt < |s.past.given| ==>
          Stable(s.caches.At(Reading(s.roles, s.refresh)), s.refresh, s.getter, s.newestWord, s.past))
  }

  ghost predicate Inv(s: State) { Pointers(s) && Contents(s) }

  lemma {:induction false} PointersKept(s: State, a: Action)
    requires Pointers(s)
    ensures Pointers(Step(s, a))
  {
  }

  lemma {:induction false} WriterKeepsContents(s: State)
    requires Inv(s)
    ensures Contents(WriterStepFn(s))
  {
  }

  lemma {:induction false} RefreshKeepsContents(s: State)
    requires Inv(s)
    ensures Contents(RefreshStepFn(s))
  {
  }

  lemma {:induction false} GetterKeepsContents(s: State)
    requires Inv(s)
    ensures Contents(GetterStepFn(s))
  {
  }

  lemma {:induction false} StepKeepsInv(s: State, a: Action)
    requires Inv(s)
    ensures Inv(Step(s, a))
  {
    PointersKept(s, a);
    WriterKeepsContents(s);
    RefreshKeepsContents(s);
    GetterKeepsContents(s);
  }

  lemma {:induction false} Invariant(s: State, schedule: seq<Action>)
    requires Inv(s)
    ensures Inv(Exec(s, schedule))
    decreases |schedule|
  {
    if schedule != [] {
      StepKeepsInv(s, schedule[0]);
      Invariant(Step(s, schedule[0]), schedule[1..]);
    }
  }

  lemma {:induction false} Reachable(schedule: seq<Action>)
    ensures Inv(Exec(Init(), schedule))
  {
    Invariant(Init(), schedule);
  }

  // ---------------------------------------------------------------------------------------
  // Main results.

  predicate Writing(w: WriterPc) { w.WAxes? || w.WPovs? || w.WButtons? || w.WWord? }

  /** The cache being overwritten is neither the one being read nor the one waiting to be
      taken, and the one waiting is not the one being read. */
  predicate Separated(s: State) {
    && s.roles.toUpdate != Reading(s.roles, s.refresh)
    && s.roles.waiting != Some(s.roles.toUpdate)
    && s.roles.waiting != Some(Reading(s.roles, s.refresh))
  }

  /** While a packet is being copied in, the caches are separated exactly when some refresh has
      already returned true or this is the first packet ever: the initial pointers let the
      second packet overwrite the cache being read. */
  lemma {:induction false} Separation(schedule: seq<Action>)
    requires Writing(Exec(Init(), schedule).writer)
    ensures var s := Exec(Init(), schedule);
            Separated(s) <==> s.past.takes > 0 || s.past.given == []
  {
    Reachable(schedule);
  }

  /** A refresh takes a packet exactly when one was given since the last take, and what it
      takes is the newest one that was copied completely. */
  lemma {:induction false} TakesNewest(schedule: seq<Action>)
    requires Exec(Init(), schedule).refresh.RExchange?
    ensures var s := Exec(Init(), schedule);
            var t, newest := Step(s, RefreshStep), |s.past.given| - 1;
            var untaken := if s.past.takes == 0 then newest >= 0 else s.past.takenAt < newest;
            && t.past.takes == (if untaken then s.past.takes + 1 else s.past.takes)
            && (untaken ==>
                  && 0 <= newest == t.past.takenAt
                  && Holds(t.caches.At(Reading(t.roles, t.refresh)), s.past.given[newest]))
  {
    Reachable(schedule);
  }

  lemma {:induction false} PastGrows(s: State, schedule: seq<Action>)
    ensures var t := Exec(s, schedule);
            && t.past.takes >= s.past.takes
            && (t.past.takes == s.past.takes ==> t.past.view == s.past.view && t.past.takenAt == s.past.takenAt)
    decreases |schedule|
  {
    if schedule != [] {
      PastGrows(Step(s, schedule[0]), schedule[1..]);
    }
  }

  /** Whatever packets arrive, the joystick data read stays what it was until the next refresh
      that takes one, and is that of the packet taken. */
  lemma {:induction false} ReadDataFixed(before: seq<Action>, after: seq<Action>)
    requires Exec(Init(), before).past.takes > 0
    requires Exec(Exec(Init(), before), after).past.takes == Exec(Init(), before).past.takes
    ensures var s := Exec(Init(), before);
            var t := Exec(s, after);
            && t.caches.At(Reading(t.roles, t.refresh)).stick == s.caches.At(Reading(s.roles, s.refresh)).stick
            && 0 <= s.past.takenAt < |s.past.given|
            && Shows(t.caches.At(Reading(t.roles, t.refresh)).stick, s.past.given[s.past.takenAt])
  {
    Reachable(before);
    Invariant(Exec(Init(), before), after);
    PastGrows(Exec(Init(), before), after);
  }

  /** A packet without a joystick leaves the joystick data of the cache it is copied into alone. */
  lemma {:induction false} NoJoystickLeavesStick(s: State)
    requires s.writer.WAxes? || s.writer.WPovs? || s.writer.WButtons? || s.writer.WWord?
    requires s.writer.p.joystick.None?
    ensures var t := WriterStepFn(s);
            t.roles == s.roles && t.caches.At(s.roles.toUpdate).stick == s.caches.At(s.roles.toUpdate).stick
  {
  }

  /** A getter never sees a mixture of packets once a refresh has returned true, and outside a
      refresh the control word is that of the packet taken or has been zeroed. */
  lemma {:induction false} GettersUntorn(schedule: seq<Action>)
    requires Exec(Init(), schedule).past.takes > 0
    ensures var s := Exec(Init(), schedule);
            && (s.getter.GDone? ==> s.getter.copy == s.past.view)
            && 0 <= s.past.takenAt < |s.past.given|
            && Shows(s.past.view, s.past.given[s.past.takenAt])
            && (s.mutex.Free? ==> s.newestWord == 0 || s.newestWord == s.past.given[s.past.takenAt].word)
  {
    Reachable(schedule);
  }

  /** Until the first packet arrives everything read is zero. */
  ghost predicate AllZero(s: State) {
    var zero := Joystick(0, 0, 0);
    && s.writer.WIdle? && s.newestWord == 0
    && s.caches == Caches(Cache(zero, 0), Cache(zero, 0), Cache(zero, 0))
    && (s.getter.GPovs? ==> s.getter.axes == 0) && (s.getter.GButtons? ==> s.getter.axes == 0 && s.getter.povs == 0)
    && (s.getter.GDone? ==> s.getter.copy == zero)
  }

  lemma {:induction false} ZeroStep(s: State, a: Action)
    requires AllZero(s) && !a.Arrive?
    ensures AllZero(Step(s, a))
  {
  }

  lemma {:induction false} ZeroFrom(s: State, schedule: seq<Action>)
    requires AllZero(s) && forall i :: 0 <= i < |schedule| ==> !schedule[i].Arrive?
    ensures AllZero(Exec(s, schedule))
    decreases |schedule|
  {
    if schedule != [] {
      ZeroStep(s, schedule[0]);
      ZeroFrom(Step(s, schedule[0]), schedule[1..]);
    }
  }

  lemma {:induction false} ZeroBeforeFirstPacket(schedule: seq<Action>)
    requires forall i :: 0 <= i < |schedule| ==> !schedule[i].Arrive?
    ensures AllZero(Exec(Init(), schedule))
  {
    ZeroFrom(Init(), schedule);
  }

  // The control word.

  /** The refresh has read a control word without bit 5, no driver station attached, and is about
      to clear that of the cache being read. */
  predicate Clears(s: State, a: Action) { a.RefreshStep? && s.refresh.RZero? && s.refresh.word / 32 % 2 == 0 }

  predicate NeverClears(s: State, schedule: seq<Action>)
    decreases |schedule|
  {
    schedule != [] ==> !Clears(s, schedule[0]) && NeverClears(Step(s, schedule[0]), schedule[1..])
  }

  /** The control word `word` of the `i`-th packet is where that packet is: in the cache about to be
      given, in the one given last, in the one being read, and with the getters. */
  ghost predicate WordKept(s: State, i: nat, word: nat) {
    && i <= |s.past.given|
    && (i == |s.past.given| ==> s.writer.WExchange? && s.caches.At(s.roles.toUpdate).word == word)
    && (i == |s.past.given| - 1 ==> s.caches.At(Given(s.roles, s.writer)).word == word)
    && (s.past.takes > 0 && s.past.takenAt == i ==>
          && s.caches.At(Reading(s.roles, s.refresh)).word == word
          && (!InRefresh(s.refresh) || s.refresh.RExchange? ==> s.newestWord == word))
  }

  lemma {:induction false} WordKeptByWriter(s: State, i: nat, word: nat)
    requires Pointers(s) && WordKept(s, i, word)
    ensures WordKept(WriterStepFn(s), i, word)
  {
  }

  lemma {:induction false} WordKeptByRefresh(s: State, i: nat, word: nat)
    requires Pointers(s) && WordKept(s, i, word) && !Clears(s, RefreshStep)
    ensures WordKept(RefreshStepFn(s), i, word)
  {
  }

  lemma {:induction false} WordKeptStep(s: State, a: Action, i: nat, word: nat)
    requires Pointers(s) && WordKept(s, i, word) && !Clears(s, a)
    ensures WordKept(Step(s, a), i, word)
  {
    match a
    case WriterStep => WordKeptByWriter(s, i, word);
    case RefreshStep => WordKeptByRefresh(s, i, word);
    case _ =>
  }

  lemma {:induction false} WordKeptRun(s: State, schedule: seq<Action>, i: nat, word: nat)
    requires Inv(s) && WordKept(s, i, word) && NeverClears(s, schedule)
    ensures Inv(Exec(s, schedule)) && WordKept(Exec(s, schedule), i, word)
    decreases |schedule|
  {
    if schedule != [] {
      StepKeepsInv(s, schedule[0]);
      WordKeptStep(s, schedule[0], i, word);
      WordKeptRun(Step(s, schedule[0]), schedule[1..], i, word);
    }
  }

  /** From the moment the control word of a packet is copied in, as long as no refresh clears a
      control word: whenever that packet is the one last taken and no refresh is under way, the
      control word the getters see is the packet's; and while it is the one given last, a refresh
      that looks at the last given cache loads the packet's control word. */
  lemma {:induction false} TakenWord(before: seq<Action>, after: seq<Action>)
    requires Exec(Init(), before).writer.WWord?
    requires NeverClears(Step(Exec(Init(), before), WriterStep), after)
    ensures var s := Exec(Init(), before);
            var i, word := |s.past.given|, s.writer.p.word;
            var t := Exec(Step(s, WriterStep), after);
            && (t.past.takes > 0 && t.past.takenAt == i && !t.mutex.Refresher? ==> t.newestWord == word)
            && (i == |t.past.given| - 1 && t.refresh == RLoadWord(Given(t.roles, t.writer)) ==>
                  Step(t, RefreshStep).refresh == RLock(word))
  {
    Reachable(before);
    var s := Exec(Init(), before);
    StepKeepsInv(s, WriterStep);
    assert s.past.takenAt < |s.past.given| || s.past.takes == 0;
    WordKeptRun(Step(s, WriterStep), after, |s.past.given|, s.writer.p.word);
  }

  lemma {:induction false} StaysCleared(s: State, schedule: seq<Action>)
    requires Inv(s) && s.past.takes > 0 && s.refresh.RNewest? && s.caches.At(s.roles.read).word == 0
    requires RefreshStep !in schedule
    ensures var t := Exec(s, schedule); t.refresh.RNewest? && t.caches.At(t.roles.read).word == 0
    decreases |schedule|
  {
    if schedule != [] {
      StepKeepsInv(s, schedule[0]);
      StaysCleared(Step(s, schedule[0]), schedule[1..]);
    }
  }

  /** A refresh that has loaded a control word without bit 5 ends with control word 0, whatever
      packets arrive meanwhile, from the first one taken on. */
  lemma {:induction false} DetachedClears(before: seq<Action>, middle: seq<Action>)
    requires Clears(Exec(Init(), before), RefreshStep) && Exec(Init(), before).past.takes > 0
    requires RefreshStep !in middle
    ensures var t := Exec(Step(Exec(Init(), before), RefreshStep), middle);
            Step(t, RefreshStep).refresh.RIdle? && Step(t, RefreshStep).newestWord == 0
  {
    Reachable(before);
    var s := Exec(Init(), before);
    StepKeepsInv(s, RefreshStep);
    StaysCleared(Step(s, RefreshStep), middle);
  }

  lemma {:induction false} ExecAppend(s: State, x: seq<Action>, y: seq<Action>)
    ensures Exec(s, x + y) == Exec(Exec(s, x), y)
    decreases |x|
  {
    if x == [] {
      assert x + y == y;
    } else {
      assert (x + y)[1..] == x[1..] + y;
      ExecAppend(Step(s, x[0]), x[1..], y);
    }
  }

  lemma {:induction false} ExecTwo(s: State, a: Action, b: Action)
    ensures Exec(s, [a, b]) == Step(Step(s, a), b)
  {
    assert [a, b][1..] == [b];
    assert Exec(Step(s, a), [b]) == Step(Step(s, a), b);
  }

  lemma {:induction false} ExecFour(s: State, a: Action, b: Action, c: Action, d: Action)
    ensures Exec(s, [a, b, c, d]) == Step(Step(Step(Step(s, a), b), c), d)
  {
    assert [a, b, c, d] == [a, b] + [c, d];
    ExecAppend(s, [a, b], [c, d]);
    ExecTwo(s, a, b);
    ExecTwo(Step(Step(s, a), b), c, d);
  }

  /** Two packets before the first refresh: a getter that runs during the second copies the old
      axes and the new buttons. */
  lemma {:induction false} TornBeforeFirstRefresh()
    ensures exists schedule :: var s := Exec(Init(), schedule);
              && s.past.takes == 0 && s.past.given == [Packet(Some(Joystick(1, 1, 1)), 32)]
              && s.getter == GDone(Joystick(0, 0, 2))
  {
    var p, q := Packet(Some(Joystick(1, 1, 1)), 32), Packet(Some(Joystick(2, 2, 2)), 32);
    var a, b := [Arrive(p), WriterStep, WriterStep, WriterStep], [WriterStep, WriterStep, WriterStep, WriterStep];
    var c, d := [Arrive(q), GetterStep, GetterStep, GetterStep], [WriterStep, WriterStep, WriterStep, GetterStep];
    ExecFour(Init(), a[0], a[1], a[2], a[3]);
    var s1 := Exec(Init(), a);
    ExecFour(s1, b[0], b[1], b[2], b[3]);
    var s2 := Exec(s1, b);
    assert s2.roles == Roles(Slot0, Slot1, Some(Slot2), Slot2, Slot0) && s2.past.given == [p];
    ExecFour(s2, c[0], c[1], c[2], c[3]);
    var s3 := Exec(s2, c);
    assert s3.getter == GButtons(0, 0) && s3.roles == s2.roles;
    ExecFour(s3, d[0], d[1], d[2], d[3]);
    ExecAppend(Init(), a, b);
    ExecAppend(Init(), a + b, c);
    ExecAppend(Init(), a + b + c, d);
    assert Exec(Init(), a + b + c + d).getter == GDone(Joystick(0, 0, 2));
  }

  // ---------------------------------------------------------------------------------------
  // The two entry points as the program runs them.

  /** A call of `newDataOccur` from start to end, and one of `HAL_RefreshDSData`. */
  function OccurSteps(p: Packet): seq<Action> {
    [Arrive(p), WriterStep, WriterStep, WriterStep] + [WriterStep, WriterStep, WriterStep, WriterStep]
  }

  function RefreshSteps(): seq<Action> {
    [RefreshStep, RefreshStep, RefreshStep, RefreshStep] + [RefreshStep, RefreshStep] + [RefreshStep]
  }

  class DriverStation {
    var caches: Caches
    var currentRead: Slot
    var currentReadLocal: Slot
    var currentCache: Option<Slot>
    var lastGiven: Slot
    var cacheToUpdate: Slot
    var newestControlWord: nat
    /** How often newDataEvents was woken up. */
    var wakeups: nat
    ghost var past: History

    /** The state of the protocol when no thread is inside a call. */
    ghost function View(): State
      reads this
    {
      State(caches, Roles(currentRead, currentReadLocal, currentCache, lastGiven, cacheToUpdate),
            newestControlWord, Free, WIdle, RIdle, GIdle, past)
    }

    constructor ()
      ensures View() == Init()
    {
      var zero := Cache(Joystick(0, 0, 0), 0);
      caches := Caches(zero, zero, zero);
      currentRead, currentReadLocal, currentCache, lastGiven, cacheToUpdate := Slot0, Slot0, None, Slot1, Slot2;
      newestControlWord, wakeups := 0, 0;
      past := History([], 0, -1, zero.stick);
    }

    method Update(p: Packet)
      modifies this`caches
      ensures caches == old(caches).Put(cacheToUpdate,
                          CopyButtons(CopyPovs(CopyAxes(old(caches).At(cacheToUpdate), p), p), p).(word := p.word))
    {
      var c := caches.At(cacheToUpdate);
      if p.joystick.Some? {
        c := c.(stick := c.stick.(axes := p.joystick.value.axes));
        c := c.(stick := c.stick.(povs := p.joystick.value.povs));
        c := c.(stick := c.stick.(buttons := p.joystick.value.buttons));
      }
      c := c.(word := p.word);
      caches := caches.Put(cacheToUpdate, c);
    }

    method NewDataOccur(p: Packet)
      modifies this
      ensures View() == Exec(old(View()), OccurSteps(p)) && wakeups == old(wakeups) + 1
    {
      ghost var s := View();
      Update(p);
      var given := cacheToUpdate;
      var prev := currentCache;
      currentCache := Some(cacheToUpdate);
      past := past.(given := past.given + [p]);
      if prev.None? {
        cacheToUpdate := currentReadLocal;
        currentReadLocal := lastGiven;
      } else {
        cacheToUpdate := prev.value;
      }
      lastGiven := given;
      wakeups := wakeups + 1;
      OccurUnfolds(s, p);
    }

    method RefreshDSData() returns (took: bool)
      modifies this
      ensures View() == Exec(old(View()), RefreshSteps())
      ensures took == (View().past.takes > old(View().past.takes))
    {
      ghost var s := View();
      var controlWord := caches.At(lastGiven).word;
      var prev := currentCache;
      currentCache := None;
      if prev.Some? {
        past := past.(takes := past.takes + 1, takenAt := |past.given| - 1, view := caches.At(prev.value).stick);
        currentRead := prev.value;
      }
      if !DsAttached(controlWord) {
        caches := caches.Put(currentRead, caches.At(currentRead).(word := 0));
      }
      newestControlWord := caches.At(currentRead).word;
      took := prev.Some?;
      RefreshUnfolds(s);
    }
  }

  lemma {:induction false} OccurUnfolds(s: State, p: Packet)
    requires s.writer.WIdle?
    ensures var t := Step(Step(Step(Step(s, Arrive(p)), WriterStep), WriterStep), WriterStep);
            Exec(s, OccurSteps(p)) == Step(Step(Step(Step(t, WriterStep), WriterStep), WriterStep), WriterStep)
  {
    ExecAppend(s, [Arrive(p), WriterStep, WriterStep, WriterStep], [WriterStep, WriterStep, WriterStep, WriterStep]);
    ExecFour(s, Arrive(p), WriterStep, WriterStep, WriterStep);
    var t := Step(Step(Step(Step(s, Arrive(p)), WriterStep), WriterStep), WriterStep);
    ExecFour(t, WriterStep, WriterStep, WriterStep, WriterStep);
  }

  lemma {:induction false} RefreshUnfolds(s: State)
    ensures var t := Step(Step(Step(Step(s, RefreshStep), RefreshStep), RefreshStep), RefreshStep);
            Exec(s, RefreshSteps()) == Step(Step(Step(t, RefreshStep), RefreshStep), RefreshStep)
  {
    var four, two := [RefreshStep, RefreshStep, RefreshStep, RefreshStep], [RefreshStep, RefreshStep];
    ExecAppend(s, four + two, [RefreshStep]);
    ExecAppend(s, four, two);
    ExecFour(s, RefreshStep, RefreshStep, RefreshStep, RefreshStep);
    var t := Exec(s, four);
    ExecTwo(t, RefreshStep, RefreshStep);
  }

  predicate Quiet(s: State) { s.writer.WIdle? && s.refresh.RIdle? && s.mutex.Free? }

  /** One packet and one refresh after it, nobody interfering, from any reachable state: the
      refresh takes the packet, and the getters see its joystick and, if bit 5 of its control word
      is set, that word, otherwise 0. */
  lemma {:induction false} PacketThenRefresh(before: seq<Action>, p: Packet)
    requires Quiet(Exec(Init(), before))
    ensures var s := Exec(Init(), before);
            var t := Exec(Exec(s, OccurSteps(p)), RefreshSteps());
            && Quiet(t) && t.past.takes == s.past.takes + 1
            && t.newestWord == (if p.word / 32 % 2 == 1 then p.word else 0)
            && Shows(t.caches.At(t.roles.read).stick, p)
  {
    Reachable(before);
    var s := Exec(Init(), before);
    GivenAlone(s, p);
    RefreshedAlone(Exec(s, OccurSteps(p)), p);
  }

  lemma {:induction false} GivenAlone(s: State, p: Packet)
    requires Inv(s) && Quiet(s)
    ensures var u := Exec(s, OccurSteps(p));
            && Quiet(u) && u.past.takes == s.past.takes && u.roles.waiting == Some(u.roles.lastGiven)
            && Shows(u.caches.At(u.roles.lastGiven).stick, p) && u.caches.At(u.roles.lastGiven).word == p.word
  {
    OccurUnfolds(s, p);
  }

  lemma {:induction false} RefreshedAlone(u: State, p: Packet)
    requires Quiet(u) && u.roles.waiting == Some(u.roles.lastGiven)
    requires Shows(u.caches.At(u.roles.lastGiven).stick, p) && u.caches.At(u.roles.lastGiven).word == p.word
    ensures var t := Exec(u, RefreshSteps());
            && Quiet(t) && t.past.takes == u.past.takes + 1
            && t.newestWord == (if p.word / 32 % 2 == 1 then p.word else 0)
            && Shows(t.caches.At(t.roles.read).stick, p)
  {
    RefreshUnfolds(u);
  }
}
