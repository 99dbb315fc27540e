/** BooleanEvent combinators on one EventLoop (lib/ds/BooleanEvent.cpp, lib/ds/EventLoop.cpp).

    The program stores every event's value in a shared bool, captures the last value seen by
    an edge detector in its closure, and on each poll runs all bindings once in the order they
    were bound.  Here the closures are data, and one in-order pass is shown to give every
    event the value of a semantics that knows neither cells nor captured values nor order. */
module EventCircuit {

  /** Events are numbered in the order they were constructed. */
  type Event = nat
  type ActionId = nat
  /** The inputs read by raw conditions at one moment. */
  type Env = nat -> bool

  /** The right operand of `&&` and `||`: any function, in particular another event. */
  datatype Operand = Of(e: Event) | Raw(k: nat)

  datatype Condition =
    | Input(k: nat)
    | Not(a: Event)
    | And(a: Event, rhs: Operand)
    | Or(a: Event, rhs: Operand)
    | Rising(a: Event)
    | Falling(a: Event)

  datatype Binding = Update(e: Event) | IfHigh(e: Event, action: ActionId)

  /** Everything a program can do with a loop: construct an event while the inputs are `env`,
      bind an action, or poll while the inputs are `env`. */
  datatype Op = Make(c: Condition, env: Env) | OnHigh(e: Event, action: ActionId) | Poll(env: Env)

  predicate Operands(c: Condition, n: nat) {
    match c
    case Input(_) => true
    case Not(a) => a < n
    case And(a, r) => a < n && (r.Of? ==> r.e < n)
    case Or(a, r) => a < n && (r.Of? ==> r.e < n)
    case Rising(a) => a < n
    case Falling(a) => a < n
  }

  function Conditions(h: seq<Op>): seq<Condition>
    decreases |h|
  {
    if h == [] then []
    else Conditions(h[..|h| - 1]) + (if h[|h| - 1].Make? then [h[|h| - 1].c] else [])
  }

  function Bindings(h: seq<Op>): seq<Binding>
    decreases |h|
  {
    if h == [] then []
    else
      Bindings(h[..|h| - 1]) +
      match h[|h| - 1]
      case Make(_, _) => [Update(|Conditions(h[..|h| - 1])|)]
      case OnHigh(e, action) => [IfHigh(e, action)]
      case Poll(_) => []
  }

  /** Only events that exist are used. */
  predicate Closed(h: seq<Op>)
    ensures Closed(h) ==> forall i :: 0 <= i < |Conditions(h)| ==> Operands(Conditions(h)[i], i)
    decreases |h|
  {
    h != [] ==>
      var before := h[..|h| - 1];
      && Closed(before)
      && match h[|h| - 1]
         case Make(c, _) => Operands(c, |Conditions(before)|)
         case OnHigh(e, _) => e < |Conditions(before)|
         case Poll(_) => true
  }

  // ---------------------------------------------------------------------------------------
  // Stream semantics.

  /** The value of event `i` after history `h`.  A poll gives every event the value of its
      formula over the values after that same poll; an edge compares with the values before. */
  ghost function Value(h: seq<Op>, i: Event): bool
    requires Closed(h) && i < |Conditions(h)|
    decreases |h|, i, 1
  {
    var before := h[..|h| - 1];
    match h[|h| - 1]
    case OnHigh(_, _) => Value(before, i)
    case Make(c, env) =>
      if i < |Conditions(before)| then Value(before, i)
      else
        (match c
         case Input(k) => env(k)
         case Not(a) => !Value(before, a)
         case And(a, r) => Value(before, a) && (if r.Of? then Value(before, r.e) else env(r.k))
         case Or(a, r) => Value(before, a) || (if r.Of? then Value(before, r.e) else env(r.k))
         case Rising(_) => false
         case Falling(_) => false)
    case Poll(env) =>
      match Conditions(h)[i]
      case Input(k) => env(k)
      case Not(a) => !Value(h, a)
      case And(a, r) => Value(h, a) && (if r.Of? then Value(h, r.e) else env(r.k))
      case Or(a, r) => Value(h, a) || (if r.Of? then Value(h, r.e) else env(r.k))
      case Rising(a) => !Value(before, a) && Value(h, a)
      case Falling(a) => Value(before, a) && !Value(h, a)
  }

  /** The actions the bindings `bs` run in a poll that ends with history `h`. */
  ghost function Fired(h: seq<Op>, bs: seq<Binding>): seq<ActionId>
    requires Closed(h)
    decreases |bs|
  {
    if bs == [] then []
    else
      var b := bs[|bs| - 1];
      Fired(h, bs[..|bs| - 1]) + (if b.IfHigh? && b.e < |Conditions(h)| && Value(h, b.e) then [b.action] else [])
  }

  /** In a list of bindings the updates come in the order of the events, and an action comes
      after the update of its event. */
  function Updates(bs: seq<Binding>): nat
    decreases |bs|
  {
    if bs == [] then 0 else Updates(bs[..|bs| - 1]) + (if bs[|bs| - 1].Update? then 1 else 0)
  }

  predicate InOrder(bs: seq<Binding>)
    decreases |bs|
  {
    bs != [] ==>
      var before, b := bs[..|bs| - 1], bs[|bs| - 1];
      InOrder(before) && (if b.Update? then b.e == Updates(before) else b.e < Updates(before))
  }

  lemma {:induction false} BindingsInOrder(h: seq<Op>)
    requires Closed(h)
    ensures InOrder(Bindings(h)) && Updates(Bindings(h)) == |Conditions(h)|
    decreases |h|
  {
    if h != [] {
      var before := h[..|h| - 1];
      BindingsInOrder(before);
      var bs := Bindings(before);
      match h[|h| - 1] {
        case Make(_, _) =>
          assert Bindings(h) == bs + [Update(|Conditions(before)|)];
          assert Bindings(h)[..|bs|] == bs;
        case OnHigh(e, action) =>
          assert Bindings(h) == bs + [IfHigh(e, action)];
          assert Bindings(h)[..|bs|] == bs;
        case Poll(_) =>
          assert Bindings(h) == bs;
      }
    }
  }

  lemma {:induction false} InOrderAt(bs: seq<Binding>, j: nat)
    requires InOrder(bs) && j < |bs|
    ensures Updates(bs[..j + 1]) <= Updates(bs)
    ensures if bs[j].Update? then bs[j].e == Updates(bs[..j]) else bs[j].e < Updates(bs[..j])
    ensures Updates(bs[..j + 1]) == Updates(bs[..j]) + (if bs[j].Update? then 1 else 0)
    decreases |bs|
  {
    assert bs[..j + 1][..j] == bs[..j];
    if j + 1 == |bs| {
      assert bs[..j + 1] == bs;
    } else {
      var before := bs[..|bs| - 1];
      InOrderAt(before, j);
      assert before[..j] == bs[..j] && before[..j + 1] == bs[..j + 1];
    }
  }

  ghost function Ran(h: seq<Op>): seq<ActionId>
    requires Closed(h)
    decreases |h|
  {
    if h == [] then []
    else if h[|h| - 1].Poll? then Ran(h[..|h| - 1]) + Fired(h, Bindings(h[..|h| - 1]))
    else Ran(h[..|h| - 1])
  }

  // ---------------------------------------------------------------------------------------
  // The loop as the program runs it.

  /** What a condition's closure returns, reading the cells `cells` and its captured value. */
  function Formula(c: Condition, cells: seq<bool>, captured: bool, env: Env): bool
    requires Operands(c, |cells|)
  {
    match c
    case Input(k) => env(k)
    case Not(a) => !cells[a]
    case And(a, r) => cells[a] && (if r.Of? then cells[r.e] else env(r.k))
    case Or(a, r) => cells[a] || (if r.Of? then cells[r.e] else env(r.k))
    case Rising(a) => !captured && cells[a]
    case Falling(a) => captured && !cells[a]
  }

  /** The value an edge detector's closure has captured: its operand's last value. */
  ghost predicate Captured(h: seq<Op>, i: Event, previous: bool)
    requires Closed(h) && i < |Conditions(h)|
  {
    var c := Conditions(h)[i];
    c.Rising? || c.Falling? ==> previous == Value(h, c.a)
  }

  /** Cells `lo..hi` hold the values the semantics gives. */
  ghost predicate Holds(h: seq<Op>, cells: seq<bool>, previous: seq<bool>, lo: nat, hi: nat)
    requires Closed(h)
  {
    && hi <= |Conditions(h)| == |cells| == |previous|
    && forall i :: lo <= i < hi ==> cells[i] == Value(h, i) && Captured(h, i, previous[i])
  }

  lemma {:induction false} QuietOp(h: seq<Op>, op: Op, cells: seq<bool>, previous: seq<bool>)
    requires Closed(h) && Closed(h + [op]) && op.OnHigh?
    requires Holds(h, cells, previous, 0, |cells|)
    ensures Conditions(h + [op]) == Conditions(h)
    ensures Holds(h + [op], cells, previous, 0, |cells|)
  {
    assert (h + [op])[..|h|] == h;
    forall i | 0 <= i < |cells|
      ensures cells[i] == Value(h + [op], i) && Captured(h + [op], i, previous[i])
    {
      assert cells[i] == Value(h, i) && Captured(h, i, previous[i]);
    }
  }

  lemma {:induction false} Made(h: seq<Op>, c: Condition, env: Env, cells: seq<bool>, previous: seq<bool>)
    requires Closed(h) && Holds(h, cells, previous, 0, |cells|) && Operands(c, |cells|)
    ensures var captured := (c.Rising? || c.Falling?) && cells[c.a];
            && Closed(h + [Make(c, env)])
            && Conditions(h + [Make(c, env)]) == Conditions(h) + [c]
            && Holds(h + [Make(c, env)], cells + [Formula(c, cells, captured, env)], previous + [captured], 0, |cells| + 1)
  {
    var g := h + [Make(c, env)];
    assert g[..|h|] == h;
    var captured := (c.Rising? || c.Falling?) && cells[c.a];
    forall i | 0 <= i < |cells|
      ensures cells[i] == Value(g, i) && Captured(g, i, previous[i])
    {
      assert cells[i] == Value(h, i) && Captured(h, i, previous[i]);
    }
    assert Formula(c, cells, captured, env) == Value(g, |cells|);
  }

  /** During a poll: the closure of the next event, run with its operands already updated and
      its captured value still that of the last poll, returns the event's new value. */
  lemma {:induction false} Polled(h: seq<Op>, env: Env, cells: seq<bool>, previous: seq<bool>, i: Event)
    requires Closed(h) && i < |Conditions(h)| == |cells| == |previous| && Captured(h, i, previous[i])
    requires Closed(h + [Poll(env)]) && Conditions(h + [Poll(env)]) == Conditions(h)
    requires forall a :: 0 <= a < i ==> cells[a] == Value(h + [Poll(env)], a)
    requires Operands(Conditions(h)[i], i)
    ensures Formula(Conditions(h)[i], cells, previous[i], env) == Value(h + [Poll(env)], i)
  {
    assert (h + [Poll(env)])[..|h|] == h;
  }

  lemma {:induction false} UpdateOne(h: seq<Op>, env: Env, cells: seq<bool>, previous: seq<bool>, e: Event)
    requires Closed(h) && e < |Conditions(h)| && Operands(Conditions(h)[e], |cells|)
    requires Closed(h + [Poll(env)]) && Conditions(h + [Poll(env)]) == Conditions(h)
    requires Holds(h + [Poll(env)], cells, previous, 0, e) && Holds(h, cells, previous, e, |cells|)
    ensures var c := Conditions(h)[e];
            var cells', previous' := cells[e := Formula(c, cells, previous[e], env)],
                                     previous[e := if c.Rising? || c.Falling? then cells[c.a] else previous[e]];
            Holds(h + [Poll(env)], cells', previous', 0, e + 1) && Holds(h, cells', previous', e + 1, |cells|)
  {
    Polled(h, env, cells, previous, e);
    var c := Conditions(h)[e];
    assert Operands(c, e);
    assert Captured(h + [Poll(env)], e, if c.Rising? || c.Falling? then cells[c.a] else previous[e]);
  }

  lemma {:induction false} PollKeepsCircuit(h: seq<Op>, env: Env)
    requires Closed(h)
    ensures Closed(h + [Poll(env)]) && Conditions(h + [Poll(env)]) == Conditions(h)
    ensures Bindings(h + [Poll(env)]) == Bindings(h)
    ensures Ran(h + [Poll(env)]) == Ran(h) + Fired(h + [Poll(env)], Bindings(h))
  {
    assert (h + [Poll(env)])[..|h|] == h;
  }

  /** A poll in progress: `j` of the bindings have run. */
  ghost predicate MidPoll(h: seq<Op>, env: Env, j: nat, cells: seq<bool>, previous: seq<bool>, ran: seq<ActionId>)
    requires Closed(h) && Closed(h + [Poll(env)])
  {
    && j <= |Bindings(h)|
    && var done := Updates(Bindings(h)[..j]);
       && done <= |cells|
       && Holds(h + [Poll(env)], cells, previous, 0, done)
       && Holds(h, cells, previous, done, |cells|)
       && ran == Ran(h) + Fired(h + [Poll(env)], Bindings(h)[..j])
  }

  lemma {:induction false} MidPollUpdate(h: seq<Op>, env: Env, j: nat, cells: seq<bool>, previous: seq<bool>, ran: seq<ActionId>)
    requires Closed(h) && Closed(h + [Poll(env)]) && MidPoll(h, env, j, cells, previous, ran)
    requires j < |Bindings(h)| && Bindings(h)[j].Update?
    ensures var e := Bindings(h)[j].e;
            && e < |Conditions(h)| == |cells| == |previous| && Operands(Conditions(h)[e], |cells|)
            && var c := Conditions(h)[e];
               MidPoll(h, env, j + 1, cells[e := Formula(c, cells, previous[e], env)],
                       previous[e := if c.Rising? || c.Falling? then cells[c.a] else previous[e]], ran)
  {
    PollKeepsCircuit(h, env);
    BindingsInOrder(h);
    InOrderAt(Bindings(h), j);
    assert Bindings(h)[..j + 1][..j] == Bindings(h)[..j];
    UpdateOne(h, env, cells, previous, Bindings(h)[j].e);
  }

  lemma {:induction false} MidPollAction(h: seq<Op>, env: Env, j: nat, cells: seq<bool>, previous: seq<bool>, ran: seq<ActionId>)
    requires Closed(h) && Closed(h + [Poll(env)]) && MidPoll(h, env, j, cells, previous, ran)
    requires j < |Bindings(h)| && Bindings(h)[j].IfHigh?
    ensures var b := Bindings(h)[j];
            && b.e < |cells|
            && MidPoll(h, env, j + 1, cells, previous, if cells[b.e] then ran + [b.action] else ran)
  {
    PollKeepsCircuit(h, env);
    BindingsInOrder(h);
    InOrderAt(Bindings(h), j);
    assert Bindings(h)[..j + 1][..j] == Bindings(h)[..j];
    assert cells[Bindings(h)[j].e] == Value(h + [Poll(env)], Bindings(h)[j].e);
  }

  class EventLoop {
    var bindings: seq<Binding>
    /** Per event: the condition it was built from, the shared bool, and the captured value. */
    var conditions: seq<Condition>
    var state: seq<bool>
    var previous: seq<bool>
    var ran: seq<ActionId>
    ghost var history: seq<Op>

    /** What the program holds is what the semantics says of the history. */
    ghost predicate Valid()
      reads this
    {
      && Closed(history)
      && bindings == Bindings(history) && conditions == Conditions(history) && ran == Ran(history)
      && |state| == |conditions| && Holds(history, state, previous, 0, |state|)
    }

    constructor ()
      ensures Valid() && history == []
    {
      bindings, conditions, state, previous, ran, history := [], [], [], [], [], [];
    }

    /** Run a condition's closure; an edge detector captures its operand's value. */
    method Evaluate(c: Condition, captured: bool, env: Env) returns (value: bool, capture: bool)
      requires Operands(c, |state|)
      ensures value == Formula(c, state, captured, env)
      ensures capture == if c.Rising? || c.Falling? then state[c.a] else captured
    {
      capture := captured;
      match c
      case Input(k) => value := env(k);
      case Not(a) => value := !state[a];
      case And(a, r) => value := state[a] && (if r.Of? then state[r.e] else env(r.k));
      case Or(a, r) => value := state[a] || (if r.Of? then state[r.e] else env(r.k));
      case Rising(a) =>
        var present := state[a];
        capture := present;
        value := !captured && present;
      case Falling(a) =>
        var present := state[a];
        capture := present;
        value := captured && !present;
    }

    /** The BooleanEvent constructor, reached directly or through a combinator. */
    method MakeEvent(c: Condition, env: Env) returns (e: Event)
      requires Valid() && Operands(c, |conditions|)
      modifies this
      ensures Valid() && history == old(history) + [Make(c, env)] && e == |old(conditions)|
    {
      e := |conditions|;
      var captured := (c.Rising? || c.Falling?) && state[c.a];
      var value, capture := Evaluate(c, captured, env);
      Made(history, c, env, state, previous);
      assert (history + [Make(c, env)])[..|history|] == history;
      history := history + [Make(c, env)];
      bindings := bindings + [Update(e)];
      conditions, state, previous := conditions + [c], state + [value], previous + [capture];
    }

    method IfHigh(e: Event, action: ActionId)
      requires Valid() && e < |conditions|
      modifies this
      ensures Valid() && history == old(history) + [OnHigh(e, action)]
    {
      assert (history + [OnHigh(e, action)])[..|history|] == history;
      QuietOp(history, OnHigh(e, action), state, previous);
      history := history + [OnHigh(e, action)];
      bindings := bindings + [Binding.IfHigh(e, action)];
    }

    /** Runs one binding during a poll. */
    method RunBinding(env: Env, j: nat)
      requires Closed(history) && Closed(history + [Poll(env)])
      requires bindings == Bindings(history) && conditions == Conditions(history) && j < |bindings|
      requires MidPoll(history, env, j, state, previous, ran)
      modifies this`state, this`previous, this`ran
      ensures MidPoll(history, env, j + 1, state, previous, ran)
    {
      match bindings[j] {
        case Update(e) =>
          MidPollUpdate(history, env, j, state, previous, ran);
          var value, capture := Evaluate(conditions[e], previous[e], env);
          state, previous := state[e := value], previous[e := capture];
        case IfHigh(e, action) =>
          MidPollAction(history, env, j, state, previous, ran);
          if state[e] { ran := ran + [action]; }
      }
    }

    /** One pass over the bindings, in the order they were bound. */
    method PollOnce(env: Env)
      requires Valid()
      modifies this
      ensures Valid() && history == old(history) + [Poll(env)]
    {
      ghost var h, after := history, history + [Poll(env)];
      PollKeepsCircuit(h, env);
      for j := 0 to |bindings|
        invariant bindings == Bindings(h) && conditions == Conditions(h) && history == h
        invariant MidPoll(h, env, j, state, previous, ran)
      {
        RunBinding(env, j);
      }
      assert bindings[..|bindings|] == bindings;
      BindingsInOrder(h);
      history := after;
    }
  }

  // ---------------------------------------------------------------------------------------
  // Expressions and streams.

  /** Expressions over the combinators; sharing of events is allowed by `Denotes`. */
  datatype Expr = In(k: nat) | Neg(x: Expr) | Both(x: Expr, y: Expr) | Either(x: Expr, y: Expr) | Rise(x: Expr) | Fall(x: Expr)

  /** The values an expression and its parts have when a stream begins. */
  datatype Start = Leaf(was: bool) | One(was: bool, x: Start) | Two(was: bool, x: Start, y: Start)

  predicate Suits(st: Start, e: Expr) {
    match e
    case In(_) => st.Leaf?
    case Neg(x) => st.One? && Suits(st.x, x)
    case Both(x, y) => st.Two? && Suits(st.x, x) && Suits(st.y, y)
    case Either(x, y) => st.Two? && Suits(st.x, x) && Suits(st.y, y)
    case Rise(x) => st.One? && Suits(st.x, x)
    case Fall(x) => st.One? && Suits(st.x, x)
  }

  /** The value of an expression at the end of a stream of inputs, one per poll. */
  ghost function Stream(e: Expr, st: Start, envs: seq<Env>): bool
    requires Suits(st, e)
    decreases |envs|, e
  {
    if envs == [] then st.was
    else
      match e
      case In(k) => envs[|envs| - 1](k)
      case Neg(x) => !Stream(x, st.x, envs)
      case Both(x, y) => Stream(x, st.x, envs) && Stream(y, st.y, envs)
      case Either(x, y) => Stream(x, st.x, envs) || Stream(y, st.y, envs)
      case Rise(x) => !Stream(x, st.x, envs[..|envs| - 1]) && Stream(x, st.x, envs)
      case Fall(x) => Stream(x, st.x, envs[..|envs| - 1]) && !Stream(x, st.x, envs)
  }

  ghost predicate DenotesRhs(cs: seq<Condition>, r: Operand, e: Expr)
    decreases e, 1
  {
    if r.Of? then Denotes(cs, r.e, e) else e == In(r.k)
  }

  ghost predicate Denotes(cs: seq<Condition>, i: Event, e: Expr)
    decreases e, 0
  {
    i < |cs| &&
    match e
    case In(k) => cs[i] == Input(k)
    case Neg(x) => cs[i].Not? && Denotes(cs, cs[i].a, x)
    case Both(x, y) => cs[i].And? && Denotes(cs, cs[i].a, x) && DenotesRhs(cs, cs[i].rhs, y)
    case Either(x, y) => cs[i].Or? && Denotes(cs, cs[i].a, x) && DenotesRhs(cs, cs[i].rhs, y)
    case Rise(x) => cs[i].Rising? && Denotes(cs, cs[i].a, x)
    case Fall(x) => cs[i].Falling? && Denotes(cs, cs[i].a, x)
  }

  /** Where the event that stands for `e`, and those of its parts, are after `h`. */
  ghost function Starting(h: seq<Op>, i: Event, e: Expr): (st: Start)
    requires Closed(h) && Denotes(Conditions(h), i, e)
    ensures Suits(st, e) && st.was == Value(h, i)
    decreases e, 0
  {
    var c := Conditions(h)[i];
    match e
    case In(_) => Leaf(Value(h, i))
    case Neg(x) => One(Value(h, i), Starting(h, c.a, x))
    case Both(x, y) => Two(Value(h, i), Starting(h, c.a, x), StartingRhs(h, c.rhs, y))
    case Either(x, y) => Two(Value(h, i), Starting(h, c.a, x), StartingRhs(h, c.rhs, y))
    case Rise(x) => One(Value(h, i), Starting(h, c.a, x))
    case Fall(x) => One(Value(h, i), Starting(h, c.a, x))
  }

  /** A raw operand has no event, and nothing depends on where it starts. */
  ghost function StartingRhs(h: seq<Op>, r: Operand, e: Expr): (st: Start)
    requires Closed(h) && DenotesRhs(Conditions(h), r, e)
    ensures Suits(st, e)
    decreases e, 1
  {
    if r.Of? then Starting(h, r.e, e) else Leaf(false)
  }

  /** The inputs of the polls in `later`. */
  function PollInputs(later: seq<Op>): seq<Env>
    decreases |later|
  {
    if later == [] then []
    else PollInputs(later[..|later| - 1]) + (if later[|later| - 1].Poll? then [later[|later| - 1].env] else [])
  }

  lemma {:induction false} ValueStays(h: seq<Op>, later: seq<Op>, i: Event)
    requires later != [] && !later[|later| - 1].Poll? && Closed(h + later) && i < |Conditions(h)|
    ensures Closed(h + later[..|later| - 1]) && i < |Conditions(h + later[..|later| - 1])| <= |Conditions(h + later)|
    ensures Value(h + later, i) == Value(h + later[..|later| - 1], i)
  {
    SplitLast(h, later);
    ConditionsGrow(h, later[..|later| - 1]);
  }

  /** For every expression over the combinators and every event that stands for it, whenever and
      under whatever inputs its parts were constructed: from then on, whatever else is built,
      bound or polled, the event has the value of the stream semantics, starting from where the
      events are. */
  lemma {:induction false} CircuitIsStream(h: seq<Op>, later: seq<Op>, i: Event, e: Expr)
    requires Closed(h) && Closed(h + later) && Denotes(Conditions(h), i, e)
    ensures i < |Conditions(h + later)|
    ensures Value(h + later, i) == Stream(e, Starting(h, i, e), PollInputs(later))
    decreases |later|, e
  {
    ConditionsGrow(h, later);
    if later == [] {
      assert h + later == h;
    } else {
      var sooner := later[..|later| - 1];
      SplitLast(h, later);
      if later[|later| - 1].Poll? {
        PollIsStream(h, later, i, e);
      } else {
        CircuitIsStream(h, sooner, i, e);
        ValueStays(h, later, i);
        assert PollInputs(later) == PollInputs(sooner);
      }
    }
  }

  /** The step of a poll. */
  lemma {:induction false} PollIsStream(h: seq<Op>, later: seq<Op>, i: Event, e: Expr)
    requires Closed(h) && Closed(h + later) && Denotes(Conditions(h), i, e) && later != [] && later[|later| - 1].Poll?
    ensures i < |Conditions(h + later)|
    ensures Value(h + later, i) == Stream(e, Starting(h, i, e), PollInputs(later))
    decreases |later|, e, 0
  {
    var sooner, env, c := later[..|later| - 1], later[|later| - 1].env, Conditions(h)[i];
    SplitLast(h, later);
    ConditionsGrow(h, sooner);
    ConditionsGrow(h, later);
    assert PollInputs(later) == PollInputs(sooner) + [env];
    assert PollInputs(later)[..|PollInputs(later)| - 1] == PollInputs(sooner);
    assert Conditions(h + later)[i] == c;
    if !e.In? {
      CircuitIsStream(h, later, c.a, e.x);
    }
    if e.Rise? || e.Fall? {
      CircuitIsStream(h, sooner, c.a, e.x);
    }
    if (e.Both? || e.Either?) && c.rhs.Of? {
      CircuitIsStream(h, later, c.rhs.e, e.y);
    }
  }

  /** The combinators applied bottom-up, each event constructed while the inputs are what
      `inputs` says for its number. */
  ghost function Build(e: Expr, h: seq<Op>, inputs: Event -> Env): (r: (seq<Op>, Event))
    requires Closed(h)
    ensures Closed(r.0) && r.1 < |Conditions(r.0)| && Conditions(h) <= Conditions(r.0)
    decreases e
  {
    match e
    case In(k) => Append(h, Input(k), inputs)
    case Neg(x) => var (g, a) := Build(x, h, inputs); Append(g, Not(a), inputs)
    case Both(x, y) => var (g, a) := Build(x, h, inputs); var (f, b) := Build(y, g, inputs); Append(f, And(a, Of(b)), inputs)
    case Either(x, y) => var (g, a) := Build(x, h, inputs); var (f, b) := Build(y, g, inputs); Append(f, Or(a, Of(b)), inputs)
    case Rise(x) => var (g, a) := Build(x, h, inputs); Append(g, Rising(a), inputs)
    case Fall(x) => var (g, a) := Build(x, h, inputs); Append(g, Falling(a), inputs)
  }

  ghost function Append(h: seq<Op>, c: Condition, inputs: Event -> Env): (r: (seq<Op>, Event))
    requires Closed(h) && Operands(c, |Conditions(h)|)
    ensures Closed(r.0) && Conditions(r.0) == Conditions(h) + [c] && r.1 == |Conditions(h)|
  {
    var op := Make(c, inputs(|Conditions(h)|));
    assert (h + [op])[..|h|] == h;
    (h + [op], |Conditions(h)|)
  }

  lemma {:induction false} DenotesLonger(cs: seq<Condition>, ds: seq<Condition>, i: Event, e: Expr)
    requires cs <= ds && Denotes(cs, i, e)
    ensures Denotes(ds, i, e)
    decreases e
  {
    if !e.In? {
      DenotesLonger(cs, ds, cs[i].a, e.x);
    }
    if (e.Both? || e.Either?) && cs[i].rhs.Of? {
      DenotesLonger(cs, ds, cs[i].rhs.e, e.y);
    }
  }

  lemma {:induction false} BuildDenotes(e: Expr, h: seq<Op>, inputs: Event -> Env)
    requires Closed(h)
    ensures var (g, i) := Build(e, h, inputs); Denotes(Conditions(g), i, e)
    decreases e
  {
    var (g, i) := Build(e, h, inputs);
    if !e.In? {
      BuildDenotes(e.x, h, inputs);
      var (g1, a) := Build(e.x, h, inputs);
      if e.Both? || e.Either? {
        BuildDenotes(e.y, g1, inputs);
        var (g2, b) := Build(e.y, g1, inputs);
        DenotesLonger(Conditions(g1), Conditions(g), a, e.x);
        DenotesLonger(Conditions(g2), Conditions(g), b, e.y);
      } else {
        DenotesLonger(Conditions(g1), Conditions(g), a, e.x);
      }
    }
  }

  /** A new combination starts at the value of its operands, and a new edge low. */
  lemma {:induction false} BuiltValue(e: Expr, h: seq<Op>, inputs: Event -> Env)
    requires Closed(h) && !e.In?
    ensures var (g, i) := Build(e, h, inputs);
            var c := Conditions(g)[i];
            && (e.Rise? || e.Fall? ==> !Value(g, i))
            && (e.Neg? ==> c.Not? && c.a < i && Value(g, i) == !Value(g, c.a))
            && (e.Both? ==> c.And? && c.rhs.Of? && c.a < i && c.rhs.e < i && Value(g, i) == (Value(g, c.a) && Value(g, c.rhs.e)))
            && (e.Either? ==> c.Or? && c.rhs.Of? && c.a < i && c.rhs.e < i && Value(g, i) == (Value(g, c.a) || Value(g, c.rhs.e)))
  {
    var (g, i) := Build(e, h, inputs);
    assert g[..|g| - 1] + [g[|g| - 1]] == g;
  }

  /** Built on a loop in any state, while inputs change, every expression follows its stream from
      then on, whatever else is built, bound or polled. */
  lemma {:induction false} ExpressionFollowsStream(e: Expr, h: seq<Op>, inputs: Event -> Env, later: seq<Op>)
    requires Closed(h) && Closed(Build(e, h, inputs).0 + later)
    ensures var (g, i) := Build(e, h, inputs);
            && Denotes(Conditions(g), i, e) && i < |Conditions(g + later)|
            && Value(g + later, i) == Stream(e, Starting(g, i, e), PollInputs(later))
  {
    BuildDenotes(e, h, inputs);
    var (g, i) := Build(e, h, inputs);
    CircuitIsStream(g, later, i, e);
  }

  // ---------------------------------------------------------------------------------------
  // Actions.

  /** Polls in `later`, played after `h`, that take event `a` from low to high. */
  ghost function Edges(h: seq<Op>, later: seq<Op>, a: Event): nat
    requires Closed(h) && Closed(h + later) && a < |Conditions(h)|
    decreases |later|
  {
    if later == [] then 0
    else
      var sooner := later[..|later| - 1];
      SplitLast(h, later);
      ConditionsGrow(h, sooner);
      ConditionsGrow(h, later);
      Edges(h, sooner, a) +
      (if later[|later| - 1].Poll? && !Value(h + sooner, a) && Value(h + later, a) then 1 else 0)
  }

  lemma {:induction false} SplitLast(h: seq<Op>, later: seq<Op>)
    requires later != [] && Closed(h + later)
    ensures (h + later)[..|h + later| - 1] == h + later[..|later| - 1]
    ensures Closed(h + later[..|later| - 1])
  {
    assert (h + later)[..|h + later| - 1] == h + later[..|later| - 1];
  }

  lemma {:induction false} ConditionsGrow(h: seq<Op>, later: seq<Op>)
    requires Closed(h + later)
    ensures Conditions(h) <= Conditions(h + later)
    decreases |later|
  {
    if later == [] {
      assert h + later == h;
    } else {
      SplitLast(h, later);
      ConditionsGrow(h, later[..|later| - 1]);
    }
  }

  /** Among the bindings, `action` belongs to one `ifHigh`, that of event `e`. */
  ghost predicate BoundOnce(bs: seq<Binding>, e: Event, action: ActionId)
    decreases |bs|
  {
    bs != [] &&
    if bs[|bs| - 1] == IfHigh(e, action) then Unbound(bs[..|bs| - 1], action)
    else (bs[|bs| - 1].IfHigh? ==> bs[|bs| - 1].action != action) && BoundOnce(bs[..|bs| - 1], e, action)
  }

  ghost predicate Unbound(bs: seq<Binding>, action: ActionId) {
    forall j :: 0 <= j < |bs| && bs[j].IfHigh? ==> bs[j].action != action
  }

  lemma {:induction false} FiredNever(h: seq<Op>, bs: seq<Binding>, action: ActionId)
    requires Closed(h) && Unbound(bs, action)
    ensures action !in Fired(h, bs)
    decreases |bs|
  {
    if bs != [] {
      FiredNever(h, bs[..|bs| - 1], action);
    }
  }

  lemma {:induction false} FiredOnce(h: seq<Op>, bs: seq<Binding>, e: Event, action: ActionId)
    requires Closed(h) && BoundOnce(bs, e, action) && e < |Conditions(h)|
    ensures multiset(Fired(h, bs))[action] == if Value(h, e) then 1 else 0
    decreases |bs|
  {
    var before, b := bs[..|bs| - 1], bs[|bs| - 1];
    if b == IfHigh(e, action) {
      FiredNever(h, before, action);
    } else {
      FiredOnce(h, before, e, action);
    }
  }

  ghost predicate NoBind(h: seq<Op>, action: ActionId) {
    forall j :: 0 <= j < |h| && h[j].OnHigh? ==> h[j].action != action
  }

  lemma {:induction false} NoBindUnbound(h: seq<Op>, action: ActionId)
    requires NoBind(h, action)
    ensures Unbound(Bindings(h), action)
    decreases |h|
  {
    if h != [] {
      NoBindUnbound(h[..|h| - 1], action);
    }
  }

  /** The action is bound exactly once in the whole history. */
  lemma {:induction false} StaysBoundOnce(h: seq<Op>, later: seq<Op>, e: Event, action: ActionId)
    requires Closed(h + later) && BoundOnce(Bindings(h), e, action) && NoBind(later, action)
    ensures BoundOnce(Bindings(h + later), e, action)
    decreases |later|
  {
    if later == [] {
      assert h + later == h;
    } else {
      var sooner := later[..|later| - 1];
      SplitLast(h, later);
      StaysBoundOnce(h, sooner, e, action);
      var bs, cs := Bindings(h + sooner), Bindings(h + later);
      if later[|later| - 1].Poll? {
        assert cs == bs;
      } else {
        assert cs[..|cs| - 1] == bs;
      }
    }
  }

  lemma {:induction false} RanNever(h: seq<Op>, action: ActionId)
    requires Closed(h) && NoBind(h, action)
    ensures action !in Ran(h)
    decreases |h|
  {
    if h != [] {
      var before := h[..|h| - 1];
      RanNever(before, action);
      NoBindUnbound(before, action);
      FiredNever(h, Bindings(before), action);
    }
  }

  lemma {:induction false} RunsPerEdgeFrom(h: seq<Op>, later: seq<Op>, e: Event, a: Event, action: ActionId)
    requires Closed(h) && Closed(h + later) && e < |Conditions(h)| && Conditions(h)[e] == Rising(a)
    requires BoundOnce(Bindings(h), e, action) && NoBind(later, action)
    requires action !in Ran(h)
    ensures a < |Conditions(h)| && multiset(Ran(h + later))[action] == Edges(h, later, a)
    decreases |later|
  {
    if later == [] {
      assert h + later == h;
    } else {
      var sooner := later[..|later| - 1];
      SplitLast(h, later);
      RunsPerEdgeFrom(h, sooner, e, a, action);
      ConditionsGrow(h, sooner);
      ConditionsGrow(h, later);
      if later[|later| - 1].Poll? {
        StaysBoundOnce(h, sooner, e, action);
        FiredOnce(h + later, Bindings(h + sooner), e, action);
      }
    }
  }

  /** An action bound once, with `ifHigh`, to `rising()` of an event runs exactly once for every
      poll that takes that event from low to high, whatever else is built, bound or polled. */
  lemma {:induction false} RisingActionPerEdge(h: seq<Op>, later: seq<Op>, e: Event, a: Event, action: ActionId)
    requires Closed(h) && e < |Conditions(h)| && Conditions(h)[e] == Rising(a)
    requires Closed(h + [OnHigh(e, action)]) && Closed(h + [OnHigh(e, action)] + later)
    requires NoBind(h, action) && NoBind(later, action)
    ensures a < |Conditions(h + [OnHigh(e, action)])|
    ensures multiset(Ran(h + [OnHigh(e, action)] + later))[action] == Edges(h + [OnHigh(e, action)], later, a)
  {
    var g := h + [OnHigh(e, action)];
    assert g[..|h|] == h;
    NoBindUnbound(h, action);
    RanNever(h, action);
    assert Bindings(g)[..|Bindings(h)|] == Bindings(h);
    RunsPerEdgeFrom(g, later, e, a, action);
  }
}
