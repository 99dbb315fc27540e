/** The staging double buffer (include/mercury_shm.h): one publisher, one reader, each index
    load or store and each word of a copy one step.  Every word in the buffers remembers which
    publication wrote it, so that what a read returns can be stated exactly. */
module DoubleBuffer {

  /** A word and the number of the publication that wrote it. */
  datatype Word = Word(value: int, pub: nat)

  datatype WriterPc =
    | WIdle
    | WCopy(v: seq<int>, wb: bool, j: nat)  // words before j are copied
    | WCount(v: seq<int>, wb: bool)         // sequence.fetch_add
    | WFlip(v: seq<int>, wb: bool)          // write_idx.store

  /** `at` is the number of the publication current when the read loaded the index. */
  datatype ReaderPc = RIdle | RCopy(rb: bool, got: seq<Word>, at: nat) | RDone(got: seq<Word>, at: nat)

  /** The two buffers are indexed by a bool.  `pubs` lists every publication begun, starting
      with the initial contents; the first `done` of them have been made current. */
  datatype State = State(buf0: seq<Word>, buf1: seq<Word>, idx: bool, sequence: nat,
                         writer: WriterPc, reader: ReaderPc, pubs: seq<seq<int>>, done: nat)

  datatype Action = Publish(v: seq<int>) | WriterStep | Read | ReaderStep

  function Buffer(s: State, b: bool): seq<Word> { if b then s.buf1 else s.buf0 }

  function WithBuffer(s: State, b: bool, w: seq<Word>): State { if b then s.(buf1 := w) else s.(buf0 := w) }

  function Init(words: seq<int>): State {
    var w := seq(|words|, i requires 0 <= i < |words| => Word(words[i], 0));
    State(w, w, false, 0, WIdle, RIdle, [words], 1)
  }

  function WriterStepFn(s: State): State {
    match s.writer
    case WIdle => s
    case WCopy(v, wb, j) =>
      var b := Buffer(s, wb);
      if j < |b| && j < |v| then WithBuffer(s, wb, b[j := Word(v[j], s.done)]).(writer := WCopy(v, wb, j + 1))
      else s.(writer := WCount(v, wb))
    case WCount(v, wb) => s.(sequence := s.sequence + 1, writer := WFlip(v, wb))
    case WFlip(v, wb) => s.(idx := wb, done := s.done + 1, writer := WIdle)
  }

  function ReaderStepFn(s: State): State {
    match s.reader
    case RIdle => s
    case RCopy(rb, got, at) =>
      var b := Buffer(s, rb);
      if |got| < |b| then s.(reader := RCopy(rb, got + [b[|got|]], at)) else s.(reader := RDone(got, at))
    case RDone(_, _) => s.(reader := RIdle)
  }

  function Step(s: State, a: Action): State {
    match a
    case Publish(v) =>
      if s.writer.WIdle? && |v| == |s.buf0| then s.(writer := WCopy(v, !s.idx, 0), pubs := s.pubs + [v]) else s
    case WriterStep => WriterStepFn(s)
    case Read => if s.reader.RIdle? && s.done > 0 then s.(reader := RCopy(s.idx, [], s.done - 1)) else s
    case ReaderStep => ReaderStepFn(s)
  }

  function Exec(s: State, schedule: seq<Action>): State
    decreases |schedule|
  {
    if schedule == [] then s else Exec(Step(s, schedule[0]), schedule[1..])
  }

  // ---------------------------------------------------------------------------------------
  // Invariants.

  /** Word `i` of some copy holds what its publication says. */
  ghost predicate Genuine(w: Word, i: nat, pubs: seq<seq<int>>) {
    w.pub < |pubs| && i < |pubs[w.pub]| && w.value == pubs[w.pub][i]
  }

  ghost predicate AllGenuine(b: seq<Word>, pubs: seq<seq<int>>) {
    forall i :: 0 <= i < |b| ==> Genuine(b[i], i, pubs)
  }

  ghost predicate Sizes(s: State) {
    var busy := !s.writer.WIdle?;
    && s.done > 0 && |s.buf0| == |s.buf1|
    && |s.pubs| == s.done + (if busy then 1 else 0)
    && (busy ==> |s.writer.v| == |s.buf0| && s.writer.wb == !s.idx && s.pubs[s.done] == s.writer.v)
    && (s.writer.WCopy? ==> s.writer.j <= |s.buf0|)
    && s.sequence == s.done - 1 + (if s.writer.WFlip? then 1 else 0)
  }

  /** The buffer the index points at is the last publication made current. */
  ghost predicate Current(cur: seq<Word>, done: nat) {
    forall i :: 0 <= i < |cur| ==> cur[i].pub == done - 1
  }

  /** The publication going on has written word `k`. */
  predicate Copied(w: WriterPc, k: nat) { w.WCount? || w.WFlip? || (w.WCopy? && k < w.j) }

  /** The other holds the publication before that one, except for the words already copied. */
  ghost predicate Spare(spare: seq<Word>, w: WriterPc, done: nat) {
    forall i :: 0 <= i < |spare| ==>
      spare[i].pub == if Copied(w, i) then done else if done >= 2 then done - 2 else 0
  }

  ghost predicate Filled(s: State) {
    && AllGenuine(s.buf0, s.pubs) && AllGenuine(s.buf1, s.pubs)
    && Current(Buffer(s, s.idx), s.done) && Spare(Buffer(s, !s.idx), s.writer, s.done)
  }

  /** A word copied since the index load is that publication's, or one that overran it. */
  ghost predicate FromOrOverrun(w: Word, at: nat, begun: nat) {
    w.pub == at || at + 2 <= w.pub < begun
  }

  ghost predicate AllFromOrOverrun(b: seq<Word>, at: nat, begun: nat) {
    forall i :: 0 <= i < |b| ==> FromOrOverrun(b[i], at, begun)
  }

  /** While the read goes on, its buffer holds words of `at` or of publications two or more
      later: the next one goes into the other buffer. */
  ghost predicate Reading(s: State) {
    s.reader.RCopy? ==>
      var at := s.reader.at;
      && at < s.done && |s.reader.got| <= |s.buf0|
      && (s.reader.rb == s.idx <==> (s.done - 1 - at) % 2 == 0)
      && AllFromOrOverrun(Buffer(s, s.reader.rb), at, |s.pubs|)
  }

  ghost predicate Got(r: ReaderPc, size: nat, pubs: seq<seq<int>>) {
    r.RCopy? || r.RDone? ==>
      && AllGenuine(r.got, pubs) && AllFromOrOverrun(r.got, r.at, |pubs|)
      && r.at < |pubs| && (r.RDone? ==> |r.got| == size)
  }

  ghost predicate Inv(s: State) {
    Sizes(s) && Filled(s) && Reading(s) && Got(s.reader, |s.buf0|, s.pubs)
  }

  lemma {:induction false} GenuineLonger(b: seq<Word>, pubs: seq<seq<int>>, v: seq<int>)
    requires AllGenuine(b, pubs)
    ensures AllGenuine(b, pubs + [v])
  {
    forall i | 0 <= i < |b|
      ensures Genuine(b[i], i, pubs + [v])
    {
      assert Genuine(b[i], i, pubs);
    }
  }

  lemma {:induction false} WriterKeepsGenuine(s: State)
    requires Sizes(s) && Filled(s)
    ensures AllGenuine(WriterStepFn(s).buf0, WriterStepFn(s).pubs) && AllGenuine(WriterStepFn(s).buf1, WriterStepFn(s).pubs)
  {
  }

  lemma {:induction false} SpareWritten(b: seq<Word>, v: seq<int>, wb: bool, j: nat, done: nat)
    requires Spare(b, WCopy(v, wb, j), done) && j < |b| == |v|
    ensures Spare(b[j := Word(v[j], done)], WCopy(v, wb, j + 1), done)
  {
  }

  lemma {:induction false} SpareCopied(b: seq<Word>, v: seq<int>, wb: bool, done: nat)
    requires Spare(b, WCopy(v, wb, |b|), done)
    ensures Spare(b, WCount(v, wb), done)
  {
  }

  lemma {:induction false} SpareFlips(b: seq<Word>, v: seq<int>, wb: bool, cur: seq<Word>, done: nat)
    requires Spare(b, WFlip(v, wb), done) && Current(cur, done) && done > 0
    ensures Current(b, done + 1) && Spare(cur, WIdle, done + 1)
  {
  }

  /** What a step of the writer does to the buffer read from and to the other. */
  lemma {:induction false} StepBuffers(s: State)
    requires Sizes(s)
    ensures var t, w, b := WriterStepFn(s), s.writer, Buffer(s, !s.idx);
            if w.WFlip? then
              && t.writer.WIdle? && t.done == s.done + 1
              && Buffer(t, t.idx) == b && Buffer(t, !t.idx) == Buffer(s, s.idx)
            else
              && t.idx == s.idx && t.done == s.done && Buffer(t, s.idx) == Buffer(s, s.idx)
              && Buffer(t, !s.idx) == (if w.WCopy? && w.j < |b| then b[w.j := Word(w.v[w.j], s.done)] else b)
              && t.writer == (if w.WIdle? then WIdle
                              else if w.WCount? then WFlip(w.v, w.wb)
                              else if w.j < |b| then WCopy(w.v, w.wb, w.j + 1)
                              else WCount(w.v, w.wb))
  {
  }

  lemma {:induction false} SpareStep(b: seq<Word>, cur: seq<Word>, w: WriterPc, done: nat)
    requires Spare(b, w, done) && Current(cur, done) && done > 0 && (w.WCopy? ==> w.j <= |b| == |w.v|)
    ensures w.WFlip? ==> Current(b, done + 1) && Spare(cur, WIdle, done + 1)
    ensures w.WCount? ==> Spare(b, WFlip(w.v, w.wb), done)
    ensures w.WCopy? && w.j < |b| ==> Spare(b[w.j := Word(w.v[w.j], done)], WCopy(w.v, w.wb, w.j + 1), done)
    ensures w.WCopy? && w.j == |b| ==> Spare(b, WCount(w.v, w.wb), done)
  {
    match w
    case WIdle =>
    case WCopy(v, wb, j) => if j < |b| { SpareWritten(b, v, wb, j, done); } else { SpareCopied(b, v, wb, done); }
    case WCount(v, wb) =>
    case WFlip(v, wb) => SpareFlips(b, v, wb, cur, done);
  }

  lemma {:induction false} WriterKeepsSpare(s: State)
    requires Sizes(s) && Filled(s)
    ensures var t := WriterStepFn(s); Current(Buffer(t, t.idx), t.done) && Spare(Buffer(t, !t.idx), t.writer, t.done)
  {
    StepBuffers(s);
    SpareStep(Buffer(s, !s.idx), Buffer(s, s.idx), s.writer, s.done);
  }

  lemma {:induction false} WriterKeepsFilled(s: State)
    requires Sizes(s) && Filled(s)
    ensures Sizes(WriterStepFn(s)) && Filled(WriterStepFn(s))
  {
    WriterKeepsGenuine(s);
    WriterKeepsSpare(s);
  }

  lemma {:induction false} WriterKeepsReading(s: State)
    requires Sizes(s) && Filled(s) && Reading(s)
    ensures Reading(WriterStepFn(s))
  {
  }

  /** The next word copied is as good as those before it. */
  lemma {:induction false} GotMore(got: seq<Word>, w: Word, at: nat, pubs: seq<seq<int>>)
    requires AllGenuine(got, pubs) && AllFromOrOverrun(got, at, |pubs|)
    requires Genuine(w, |got|, pubs) && FromOrOverrun(w, at, |pubs|)
    ensures AllGenuine(got + [w], pubs) && AllFromOrOverrun(got + [w], at, |pubs|)
  {
    forall i | 0 <= i < |got| + 1
      ensures Genuine((got + [w])[i], i, pubs) && FromOrOverrun((got + [w])[i], at, |pubs|)
    {
      if i < |got| {
        assert Genuine(got[i], i, pubs) && FromOrOverrun(got[i], at, |pubs|);
      }
    }
  }

  lemma {:induction false} ReaderKeepsInv(s: State)
    requires Inv(s)
    ensures Inv(ReaderStepFn(s))
  {
    if s.reader.RCopy? && |s.reader.got| < |Buffer(s, s.reader.rb)| {
      var b, k := Buffer(s, s.reader.rb), |s.reader.got|;
      assert Genuine(b[k], k, s.pubs) && FromOrOverrun(b[k], s.reader.at, |s.pubs|);
      GotMore(s.reader.got, b[k], s.reader.at, s.pubs);
    }
  }

  lemma {:induction false} OverrunLonger(b: seq<Word>, at: nat, begun: nat)
    requires AllFromOrOverrun(b, at, begun)
    ensures AllFromOrOverrun(b, at, begun + 1)
  {
    forall i | 0 <= i < |b|
      ensures FromOrOverrun(b[i], at, begun + 1)
    {
      assert FromOrOverrun(b[i], at, begun);
    }
  }

  lemma {:induction false} PublishKeepsReader(s: State, v: seq<int>)
    requires Reading(s) && Got(s.reader, |s.buf0|, s.pubs)
    ensures Reading(Step(s, Publish(v))) && Got(s.reader, |s.buf0|, Step(s, Publish(v)).pubs)
  {
    if s.reader.RCopy? { OverrunLonger(Buffer(s, s.reader.rb), s.reader.at, |s.pubs|); }
    if !s.reader.RIdle? {
      GenuineLonger(s.reader.got, s.pubs, v);
      OverrunLonger(s.reader.got, s.reader.at, |s.pubs|);
    }
  }

  lemma {:induction false} PublishKeepsInv(s: State, v: seq<int>)
    requires Inv(s)
    ensures Inv(Step(s, Publish(v)))
  {
    GenuineLonger(s.buf0, s.pubs, v);
    GenuineLonger(s.buf1, s.pubs, v);
    PublishKeepsReader(s, v);
  }

  lemma {:induction false} ReadKeepsInv(s: State)
    requires Inv(s)
    ensures Inv(Step(s, Read))
  {
  }

  lemma {:induction false} WriterKeepsInv(s: State)
    requires Inv(s)
    ensures Inv(WriterStepFn(s))
  {
    WriterKeepsFilled(s);
    WriterKeepsReading(s);
  }

  lemma {:induction false} StepKeepsInv(s: State, a: Action)
    requires Inv(s)
    ensures Inv(Step(s, a))
  {
    match a
    case WriterStep => WriterKeepsInv(s);
    case ReaderStep => ReaderKeepsInv(s);
    case Publish(v) => PublishKeepsInv(s, v);
    case Read => ReadKeepsInv(s);
  }

  lemma {:induction false} Reachable(s: State, schedule: seq<Action>)
    requires Inv(s)
    ensures Inv(Exec(s, schedule))
    decreases |schedule|
  {
    if schedule != [] {
      StepKeepsInv(s, schedule[0]);
      Reachable(Step(s, schedule[0]), schedule[1..]);
    }
  }

  lemma {:induction false} InitInv(words: seq<int>)
    ensures Inv(Init(words))
  {
    var s := Init(words);
    assert forall i :: 0 <= i < |words| ==> Genuine(s.buf0[i], i, s.pubs);
  }

  // ---------------------------------------------------------------------------------------
  // Main results.

  function Values(got: seq<Word>): seq<int> { seq(|got|, i requires 0 <= i < |got| => got[i].value) }

  /** All publications have the length of the buffers. */
  lemma {:induction false} PublicationsFit(words: seq<int>, schedule: seq<Action>)
    ensures var s := Exec(Init(words), schedule);
            |s.buf0| == |words| && forall k :: 0 <= k < |s.pubs| ==> |s.pubs[k]| == |words|
    decreases |schedule|
  {
    FitFrom(Init(words), schedule);
  }

  lemma {:induction false} FitFrom(s: State, schedule: seq<Action>)
    requires forall k :: 0 <= k < |s.pubs| ==> |s.pubs[k]| == |s.buf0|
    ensures var t := Exec(s, schedule);
            |t.buf0| == |s.buf0| && forall k :: 0 <= k < |t.pubs| ==> |t.pubs[k]| == |t.buf0|
    decreases |schedule|
  {
    if schedule != [] {
      FitFrom(Step(s, schedule[0]), schedule[1..]);
    }
  }

  /** Whatever the interleaving, a finished read has the right length, and each of its words is
      that word of the publication current at the index load, or of one begun after an index
      flip that followed the load.  So without such a publication the read is exact. */
  lemma {:induction false} ReadExactUnlessOverrun(words: seq<int>, schedule: seq<Action>)
    requires Exec(Init(words), schedule).reader.RDone?
    ensures var s := Exec(Init(words), schedule);
            var got, at := s.reader.got, s.reader.at;
            && at < |s.pubs| && |got| == |s.buf0|
            && (forall i :: 0 <= i < |got| ==>
                  (got[i].pub == at || at + 2 <= got[i].pub < |s.pubs|) && Genuine(got[i], i, s.pubs))
            && (|s.pubs| <= at + 2 ==> Values(got) == s.pubs[at])
  {
    InitInv(words);
    Reachable(Init(words), schedule);
    PublicationsFit(words, schedule);
    var s := Exec(Init(words), schedule);
    forall i | 0 <= i < |s.reader.got|
      ensures FromOrOverrun(s.reader.got[i], s.reader.at, |s.pubs|) && Genuine(s.reader.got[i], i, s.pubs)
    {
    }
  }

  /** The publication whose word `k` is in the buffer `b`: the current one, or else the one going
      on if it has written that word, or the one before the current one. */
  function LatestIn(s: State, b: bool, k: nat): int {
    if b == s.idx then s.done - 1 else if Copied(s.writer, k) then s.done else s.done - 2
  }

  /** Publication at + 2, the first that goes into the buffer being read, has written word `k`. */
  predicate Overtaken(s: State, k: nat)
    requires s.reader.RCopy?
  {
    s.done > s.reader.at + 2 || (s.done == s.reader.at + 2 && Copied(s.writer, k))
  }

  lemma {:induction false} WordHeld(s: State, k: nat)
    requires Inv(s) && s.reader.RCopy? && k < |Buffer(s, s.reader.rb)|
    ensures Buffer(s, s.reader.rb)[k].pub == LatestIn(s, s.reader.rb, k)
    ensures LatestIn(s, s.reader.rb, k) == s.reader.at <==> !Overtaken(s, k)
  {
  }

  /** In every reachable state with a read in progress, every word of the buffer being read is
      that of the latest publication to write it, which is the one current at the index load if
      and only if the second one after that has not written the word yet. */
  lemma {:induction false} WordExactIff(words: seq<int>, schedule: seq<Action>, k: nat)
    requires Exec(Init(words), schedule).reader.RCopy? && k < |words|
    ensures var s := Exec(Init(words), schedule);
            && k < |Buffer(s, s.reader.rb)|
            && Buffer(s, s.reader.rb)[k].pub == LatestIn(s, s.reader.rb, k)
            && (Buffer(s, s.reader.rb)[k].pub == s.reader.at <==> !Overtaken(s, k))
  {
    InitInv(words);
    Reachable(Init(words), schedule);
    PublicationsFit(words, schedule);
    WordHeld(Exec(Init(words), schedule), k);
  }

  /** The step copies the next word of a read. */
  predicate Copies(s: State, a: Action) {
    a.ReaderStep? && s.reader.RCopy? && |s.reader.got| < |Buffer(s, s.reader.rb)|
  }

  /** Every word is from publication `p`. */
  predicate AllFrom(got: seq<Word>, p: int) { forall i :: 0 <= i < |got| ==> got[i].pub == p }

  /** At each step that copies a word, publication `p` was the latest to write that word. */
  predicate LatestWhenCopied(s: State, after: seq<Action>, p: int)
    decreases |after|
  {
    after != [] ==>
      && (Copies(s, after[0]) ==> LatestIn(s, s.reader.rb, |s.reader.got|) == p)
      && LatestWhenCopied(Step(s, after[0]), after[1..], p)
  }

  /** The read in progress in `s` goes on during `after`, and may end with its last step. */
  predicate SameRead(s: State, after: seq<Action>)
    decreases |after|
  {
    after != [] ==> s.reader.RCopy? && SameRead(Step(s, after[0]), after[1..])
  }

  /** At each step that copies a word, that word had not been overtaken. */
  predicate NeverOvertaken(s: State, after: seq<Action>)
    decreases |after|
  {
    after != [] ==>
      && (Copies(s, after[0]) ==> !Overtaken(s, |s.reader.got|))
      && NeverOvertaken(Step(s, after[0]), after[1..])
  }

  lemma {:induction false} StepOfRead(s: State, a: Action, p: int)
    requires Inv(s) && s.reader.RCopy?
    ensures var r := Step(s, a).reader;
            && (r.RCopy? || r.RDone?) && r.at == s.reader.at
            && (AllFrom(r.got, p) <==>
                AllFrom(s.reader.got, p) && (Copies(s, a) ==> LatestIn(s, s.reader.rb, |s.reader.got|) == p))
  {
    var got, b := s.reader.got, Buffer(s, s.reader.rb);
    if Copies(s, a) {
      WordHeld(s, |got|);
      var more := got + [b[|got|]];
      assert more[|got|] == b[|got|] && forall i :: 0 <= i < |got| ==> more[i] == got[i];
      assert Step(s, a).reader.got == more;
    }
  }

  lemma {:induction false} RestOfRead(s: State, after: seq<Action>, p: int)
    requires Inv(s) && (s.reader.RCopy? || s.reader.RDone?) && SameRead(s, after)
    ensures var r := Exec(s, after).reader;
            && (r.RCopy? || r.RDone?) && r.at == s.reader.at
            && (AllFrom(r.got, p) <==> AllFrom(s.reader.got, p) && LatestWhenCopied(s, after, p))
    decreases |after|
  {
    if after != [] {
      StepKeepsInv(s, after[0]);
      StepOfRead(s, after[0], p);
      RestOfRead(Step(s, after[0]), after[1..], p);
    }
  }

  lemma {:induction false} LatestOrOvertaken(s: State, after: seq<Action>)
    requires Inv(s) && (s.reader.RCopy? || s.reader.RDone?) && SameRead(s, after)
    ensures LatestWhenCopied(s, after, s.reader.at) <==> NeverOvertaken(s, after)
    decreases |after|
  {
    if after != [] {
      StepKeepsInv(s, after[0]);
      StepOfRead(s, after[0], s.reader.at);
      LatestOrOvertaken(Step(s, after[0]), after[1..]);
      if Copies(s, after[0]) {
        WordHeld(s, |s.reader.got|);
      }
    }
  }

  /** A read begun after any run and interleaved with any steps returns one publication, untorn,
      if and only if that one was, at each step that copied a word, the latest to have written
      the word. */
  lemma {:induction false} ReadWholeIff(words: seq<int>, before: seq<Action>, after: seq<Action>, p: int)
    requires Exec(Init(words), before).reader.RIdle?
    requires var u := Step(Exec(Init(words), before), Read); SameRead(u, after) && Exec(u, after).reader.RDone?
    ensures var u := Step(Exec(Init(words), before), Read);
            AllFrom(Exec(u, after).reader.got, p) <==> LatestWhenCopied(u, after, p)
  {
    InitInv(words);
    Reachable(Init(words), before);
    var s := Exec(Init(words), before);
    StepKeepsInv(s, Read);
    RestOfRead(Step(s, Read), after, p);
  }

  /** It returns the publication current at its index load if and only if none of its words had
      been overtaken when it was copied; and then it is exactly the value published. */
  lemma {:induction false} ReadExactIff(words: seq<int>, before: seq<Action>, after: seq<Action>)
    requires Exec(Init(words), before).reader.RIdle?
    requires var u := Step(Exec(Init(words), before), Read); SameRead(u, after) && Exec(u, after).reader.RDone?
    ensures var s := Exec(Init(words), before);
            var u := Step(s, Read);
            var r := Exec(u, after).reader;
            && s.done > 0 && r.at == s.done - 1
            && (AllFrom(r.got, s.done - 1) <==> NeverOvertaken(u, after))
            && (NeverOvertaken(u, after) ==> s.done <= |s.pubs| && Values(r.got) == s.pubs[s.done - 1])
  {
    InitInv(words);
    Reachable(Init(words), before);
    var s := Exec(Init(words), before);
    var u := Step(s, Read);
    StepKeepsInv(s, Read);
    RestOfRead(u, after, s.done - 1);
    LatestOrOvertaken(u, after);
    Reachable(u, after);
    ReadFits(words, before, u, after);
    PubsGrow(u, after);
    ExactValues(Exec(u, after), s.done - 1, s.pubs);
  }

  lemma {:induction false} ReadFits(words: seq<int>, before: seq<Action>, u: State, after: seq<Action>)
    requires u == Step(Exec(Init(words), before), Read)
    ensures var t := Exec(u, after); |t.buf0| == |words| && forall k :: 0 <= k < |t.pubs| ==> |t.pubs[k]| == |words|
  {
    PublicationsFit(words, before);
    FitFrom(u, after);
  }

  lemma {:induction false} PubsGrow(s: State, schedule: seq<Action>)
    ensures s.pubs <= Exec(s, schedule).pubs
    decreases |schedule|
  {
    if schedule != [] {
      PubsGrow(Step(s, schedule[0]), schedule[1..]);
    }
  }

  lemma {:induction false} ExactValues(t: State, p: nat, pubs: seq<seq<int>>)
    requires Inv(t) && t.reader.RDone? && p < |pubs| && pubs <= t.pubs && |t.pubs[p]| == |t.buf0|
    ensures AllFrom(t.reader.got, p) ==> Values(t.reader.got) == pubs[p]
  {
    var got := t.reader.got;
    forall i | 0 <= i < |got| && got[i].pub == p
      ensures Values(got)[i] == pubs[p][i]
    {
      assert Genuine(got[i], i, t.pubs);
    }
  }

  /** The sequence number counts the publications made current, or one more between its
      increment and the index flip: whoever sees an index sees at least its number. */
  lemma {:induction false} SequenceWithIndex(words: seq<int>, schedule: seq<Action>)
    ensures var s := Exec(Init(words), schedule);
            s.sequence == s.done - 1 + (if s.writer.WFlip? then 1 else 0)
  {
    InitInv(words);
    Reachable(Init(words), schedule);
  }

  lemma {:induction false} Extend(s: State, x: seq<Action>, t: State, a: Action) returns (y: seq<Action>, u: State)
    requires Exec(s, x) == t
    ensures y == x + [a] && u == Step(t, a) && Exec(s, y) == u
    decreases |x|
  {
    y, u := x + [a], Step(t, a);
    if x == [] {
      assert y[1..] == [];
    } else {
      assert y[1..] == x[1..] + [a];
      var y', u' := Extend(Step(s, x[0]), x[1..], t, a);
    }
  }

  /** Two publications during one read: it returns the first word of the value it found and the
      second word of the value two publications later. */
  lemma {:induction false} TornByTwoPublications()
    ensures exists schedule :: var s := Exec(Init([0, 0]), schedule);
              s.reader.RDone? && s.reader.at == 0 && Values(s.reader.got) == [0, 2]
  {
    var s := Init([0, 0]);
    var x, t := Extend(s, [], s, Read);
    x, t := Extend(s, x, t, ReaderStep);
    assert t.reader == RCopy(false, [Word(0, 0)], 0);
    x, t := Extend(s, x, t, Publish([1, 1]));
    x, t := Extend(s, x, t, WriterStep);
    x, t := Extend(s, x, t, WriterStep);
    x, t := Extend(s, x, t, WriterStep);
    x, t := Extend(s, x, t, WriterStep);
    x, t := Extend(s, x, t, WriterStep);
    assert t.idx && t.done == 2 && t.writer == WIdle && t.buf0 == [Word(0, 0), Word(0, 0)];
    assert t.reader == RCopy(false, [Word(0, 0)], 0);
    x, t := Extend(s, x, t, Publish([2, 2]));
    x, t := Extend(s, x, t, WriterStep);
    x, t := Extend(s, x, t, WriterStep);
    assert t.buf0 == [Word(2, 2), Word(2, 2)];
    x, t := Extend(s, x, t, ReaderStep);
    x, t := Extend(s, x, t, ReaderStep);
    assert t.reader == RDone([Word(0, 0), Word(2, 2)], 0);
    assert Values(t.reader.got) == [0, 2];
  }

  // ---------------------------------------------------------------------------------------
  // Calls that nobody interrupts.

  function Repeat(n: nat, a: Action): seq<Action> { seq(n, _ => a) }

  lemma {:induction false} RepeatUnfold(s: State, n: nat, a: Action)
    ensures Exec(s, Repeat(n + 1, a)) == Exec(Step(s, a), Repeat(n, a))
  {
    assert Repeat(n + 1, a)[0] == a && Repeat(n + 1, a)[1..] == Repeat(n, a);
  }

  /** `b` with the words from `j` on written by publication `pub` of `v`. */
  function Written(b: seq<Word>, v: seq<int>, j: nat, pub: nat): (w: seq<Word>)
    requires j <= |b| == |v|
    ensures |w| == |b|
  {
    b[..j] + seq(|v| - j, i requires 0 <= i < |v| - j => Word(v[j + i], pub))
  }

  lemma {:induction false} CopyCompletes(s: State, n: nat)
    requires s.writer.WCopy? && |s.writer.v| == |Buffer(s, s.writer.wb)| == s.writer.j + n
    ensures var w := s.writer;
            Exec(s, Repeat(n, WriterStep)) ==
            WithBuffer(s, w.wb, Written(Buffer(s, w.wb), w.v, w.j, s.done)).(writer := WCopy(w.v, w.wb, w.j + n))
    decreases n
  {
    var w, b := s.writer, Buffer(s, s.writer.wb);
    if n == 0 {
      assert Repeat(0, WriterStep) == [];
      assert Written(b, w.v, w.j, s.done) == b;
    } else {
      RepeatUnfold(s, n - 1, WriterStep);
      var t := Step(s, WriterStep);
      CopyCompletes(t, n - 1);
      WrittenStep(b, w.v, w.j, s.done);
    }
  }

  lemma {:induction false} WrittenStep(b: seq<Word>, v: seq<int>, j: nat, pub: nat)
    requires j < |b| == |v|
    ensures Written(b[j := Word(v[j], pub)], v, j + 1, pub) == Written(b, v, j, pub)
  {
  }

  lemma {:induction false} ExecAppend(s: State, x: seq<Action>, y: seq<Action>)
    ensures Exec(s, x + y) == Exec(Exec(s, x), y)
    decreases |x|
  {
    if x == [] {
      assert x + y == y;
    } else {
      assert (x + y)[1..] == x[1..] + y;
      ExecAppend(Step(s, x[0]), x[1..], y);
    }
  }

  /** The count, the index flip and the end of the copy. */
  lemma {:induction false} FlipCompletes(s: State)
    requires s.writer.WCopy? && |s.writer.v| == |Buffer(s, s.writer.wb)| == s.writer.j
    ensures Exec(s, Repeat(3, WriterStep)) ==
            s.(idx := s.writer.wb, sequence := s.sequence + 1, done := s.done + 1, writer := WIdle)
  {
    RepeatUnfold(s, 2, WriterStep);
    RepeatUnfold(Step(s, WriterStep), 1, WriterStep);
    RepeatUnfold(Step(Step(s, WriterStep), WriterStep), 0, WriterStep);
    assert Repeat(0, WriterStep) == [];
  }

  function PublishSteps(v: seq<int>): seq<Action> { [Publish(v)] + (Repeat(|v|, WriterStep) + Repeat(3, WriterStep)) }

  lemma {:induction false} WrittenValues(b: seq<Word>, v: seq<int>, pub: nat)
    requires |b| == |v|
    ensures Values(Written(b, v, 0, pub)) == v
  {
  }

  lemma {:induction false} PublishUnfold(s: State, v: seq<int>)
    ensures Exec(s, PublishSteps(v)) == Exec(Exec(Step(s, Publish(v)), Repeat(|v|, WriterStep)), Repeat(3, WriterStep))
  {
    var copy, flip := Repeat(|v|, WriterStep), Repeat(3, WriterStep);
    assert PublishSteps(v)[1..] == copy + flip;
    ExecAppend(Step(s, Publish(v)), copy, flip);
  }

  /** A publication makes its value current, counts it, and leaves the buffer that was current
      until then, and any read going on, alone. */
  lemma {:induction false} PublishCompletes(s: State, v: seq<int>)
    requires s.writer.WIdle? && |v| == |s.buf0| == |s.buf1|
    ensures var t := Exec(s, PublishSteps(v));
            && t.writer.WIdle? && t.idx == !s.idx && t.sequence == s.sequence + 1 && t.done == s.done + 1
            && Values(Buffer(t, t.idx)) == v && Buffer(t, s.idx) == Buffer(s, s.idx) && t.reader == s.reader
  {
    PublishUnfold(s, v);
    var s1 := Step(s, Publish(v));
    CopyCompletes(s1, |v|);
    FlipCompletes(Exec(s1, Repeat(|v|, WriterStep)));
    WrittenValues(Buffer(s, !s.idx), v, s.done);
  }

  lemma {:induction false} ReadCopies(s: State, n: nat)
    requires s.reader.RCopy? && |Buffer(s, s.reader.rb)| == |s.reader.got| + n
    ensures var r, b := s.reader, Buffer(s, s.reader.rb);
            Exec(s, Repeat(n + 1, ReaderStep)) == s.(reader := RDone(r.got + b[|r.got|..], r.at))
    decreases n
  {
    var r, b := s.reader, Buffer(s, s.reader.rb);
    RepeatUnfold(s, n, ReaderStep);
    var t := Step(s, ReaderStep);
    if n == 0 {
      assert Repeat(0, ReaderStep) == [];
      assert r.got + b[|r.got|..] == r.got;
    } else {
      ReadCopies(t, n - 1);
      assert r.got + [b[|r.got|]] + b[|r.got| + 1..] == r.got + b[|r.got|..];
    }
  }

  function ReadSteps(size: nat): seq<Action> { [Read] + Repeat(size + 1, ReaderStep) }

  lemma {:induction false} ReadCompletes(s: State)
    requires s.reader.RIdle? && s.done > 0
    ensures Exec(s, ReadSteps(|Buffer(s, s.idx)|)) == s.(reader := RDone(Buffer(s, s.idx), s.done - 1))
  {
    var b := Buffer(s, s.idx);
    assert ReadSteps(|b|)[1..] == Repeat(|b| + 1, ReaderStep);
    ReadCopies(Step(s, Read), |b|);
    assert [] + b[0..] == b;
  }

  /** And the reader is ready for the next read one step later. */
  lemma {:induction false} ReadEnds(s: State)
    requires s.reader.RIdle? && s.done > 0
    ensures Step(Exec(s, ReadSteps(|Buffer(s, s.idx)|)), ReaderStep) == s
  {
    ReadCompletes(s);
  }

  /** What was published last is what is read next. */
  lemma {:induction false} PublishThenRead(s: State, v: seq<int>)
    requires s.writer.WIdle? && s.reader.RIdle? && |v| == |s.buf0| == |s.buf1|
    ensures var t := Exec(Exec(s, PublishSteps(v)), ReadSteps(|v|)); t.reader.RDone? && Values(t.reader.got) == v
  {
    PublishCompletes(s, v);
    var t := Exec(s, PublishSteps(v));
    assert |Values(Buffer(t, t.idx))| == |Buffer(t, t.idx)|;
    ReadCompletes(t);
  }

  class SourceDoubleBuffer {
    /** buffers[0] and buffers[1]. */
    const buffer0: array<int>
    const buffer1: array<int>
    /** write_idx. */
    var second: bool
    var sequence: nat
    var heartbeatNs: nat

    ghost predicate Valid() { buffer0 != buffer1 && buffer0.Length == buffer1.Length }

    /** The buffer the index points at, and the other. */
    ghost function Current(): seq<int>
      reads this, buffer0, buffer1
    {
      if second then buffer1[..] else buffer0[..]
    }

    ghost function Spared(): seq<int>
      reads this, buffer0, buffer1
    {
      if second then buffer0[..] else buffer1[..]
    }

    constructor (size: nat)
      ensures Valid() && buffer0.Length == size && sequence == 0 && fresh(buffer0) && fresh(buffer1)
    {
      buffer0, buffer1, second := new int[size], new int[size], false;
      sequence, heartbeatNs := 0, 0;
    }

    /** The published value becomes current; what was current stays readable in the other buffer. */
    method Publish(data: seq<int>, timestampNs: nat)
      requires Valid() && |data| == buffer0.Length
      modifies this, buffer0, buffer1
      ensures Current() == data && Spared() == old(Current()) && second == !old(second)
      ensures sequence == old(sequence) + 1 && heartbeatNs == timestampNs
    {
      if second { CopyWords(data, buffer0); } else { CopyWords(data, buffer1); }
      sequence := sequence + 1;
      heartbeatNs := timestampNs;
      second := !second;
    }

    static method CopyWords(data: seq<int>, to: array<int>)
      requires |data| == to.Length
      modifies to
      ensures to[..] == data
    {
      for j := 0 to |data|
        invariant to[..j] == data[..j]
      {
        to[j] := data[j];
      }
    }

    method Read() returns (result: seq<int>)
      requires Valid()
      ensures result == Current()
    {
      if second { result := buffer1[..]; } else { result := buffer0[..]; }
    }
  }
}
