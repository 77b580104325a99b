/** Several `pull_model` calls of src/telepath/node.py that write the same target. Each opens the
    same `.part` path, so files are kept apart from their names here: a handle stays on its file
    when the name moves. A step is what happens between two points where the call awaits. */
module PullOverlap {
  import opened Hashing
  import opened Outcomes

  datatype Stage = Before | Open | Succeeded | Failed

  /** A pull of `chunks`. It has handed `done` of them to its handle on file `file`, and the handle
      has written the first `pos` bytes of what it was given; the rest waits in its buffer. */
  datatype Task = Task(chunks: seq<Bytes>, stage: Stage, file: nat, done: nat, pos: nat)

  /** `wanted` is what the last successful pull said that it had written to the target. */
  datatype State = State(contents: seq<Bytes>, part: Option<nat>, target: Option<nat>, tasks: seq<Task>,
                         wanted: Option<Bytes>)

  datatype Move = Start | Write | Finish | Abort
  datatype Action = Action(who: nat, move: Move)

  lemma {:induction false} ConcatSplits(chunks: seq<Bytes>, k: nat)
    requires k <= |chunks|
    ensures Concat(chunks) == Concat(chunks[..k]) + Concat(chunks[k..])
  {
    if k == 0 {
      assert chunks[..0] == [] && chunks[0..] == chunks;
    } else {
      ConcatSplits(chunks[1..], k - 1);
      assert chunks[..k][1..] == chunks[1..][..k - 1] && chunks[1..][k - 1..] == chunks[k..];
    }
  }

  /** How many bytes the first `k` chunks are. */
  function Upto(chunks: seq<Bytes>, k: nat): (n: nat)
    requires k <= |chunks|
    ensures n <= |Concat(chunks)|
    ensures k < |chunks| ==> n + |chunks[k]| <= |Concat(chunks)|
  {
    ConcatSplits(chunks, k);
    |Concat(chunks[..k])|
  }

  /** How far a buffered handle has written after one more `write` of `len` bytes, when `total` bytes
      went before: a chunk that fits stays in the buffer, a larger one than the buffer goes through,
      and one in between takes the place of what was waiting. */
  function NextPos(buffer: nat, pos: nat, total: nat, len: nat): nat
    requires pos <= total
  {
    if total - pos + len <= buffer && len < buffer then pos
    else if len > buffer then total + len
    else total
  }

  /** The bytes in front of a write at `pos`: a gap reads as zeros. */
  function Front(content: Bytes, pos: nat): Bytes {
    if pos <= |content| then content[..pos] else content + Zeros(pos - |content|)
  }

  /** Bytes `pos` up to `end` of `data`, written at their place in a file; bytes behind stay. Nothing is written when
      there is nothing to write. */
  function Flushed(content: Bytes, data: Bytes, pos: nat, end: nat): Bytes
    requires pos <= end <= |data|
  {
    if pos == end then content
    else
      Front(content, pos) + data[pos..end] + (if end <= |content| then content[end..] else [])
  }

  /** What a handle holds back: never more than the buffer, and never part of a chunk. What fits is held, and a chunk
      larger than the buffer goes through at once. */
  lemma NextPosIs(buffer: nat, pos: nat, total: nat, len: nat)
    requires pos <= total && total - pos <= buffer
    ensures var next := NextPos(buffer, pos, total, len);
      && pos <= next <= total + len && total + len - next <= buffer
      && (next == pos || next == total || next == total + len)
      && (total - pos + len <= buffer && len < buffer ==> next == pos)
      && (total - pos + len > buffer ==> next >= total)
      && (len > buffer ==> next == total + len)
      && (next == total + len ==> len > buffer || len == 0)
  {
  }

  /** A file after such a write, byte by byte: the written bytes at their place, what was there elsewhere, and zeros in
      a gap. */
  lemma FlushedIs(content: Bytes, data: Bytes, pos: nat, end: nat)
    requires pos < end <= |data|
    ensures var after := Flushed(content, data, pos, end);
      && |after| == (if |content| > end then |content| else end)
      && forall i :: 0 <= i < |after| ==>
           after[i] == if pos <= i < end then data[i] else if i < |content| then content[i] else 0
  {
  }

  predicate TaskFits(t: Task, files: nat) {
    t.done <= |t.chunks| && t.pos <= Upto(t.chunks, t.done) && (t.stage.Open? ==> t.file < files)
  }

  predicate Fits(s: State) {
    && (s.part.Some? ==> s.part.value < |s.contents|)
    && (s.target.Some? ==> s.target.value < |s.contents|)
    && forall i :: 0 <= i < |s.tasks| ==> TaskFits(s.tasks[i], |s.contents|)
  }

  /** The handle of `t` writes on to byte `end` of its data. */
  function Written(s: State, t: Task, end: nat): State
    requires t.file < |s.contents| && t.pos <= end <= |Concat(t.chunks)|
  {
    s.(contents := s.contents[t.file := Flushed(s.contents[t.file], Concat(t.chunks), t.pos, end)])
  }

  /** One step; a move that does not fit the stage of its pull does nothing. Closing the handle
      writes what waits in its buffer, also when the pull is cut short. */
  function Step(buffer: nat, s: State, a: Action): State
    requires Fits(s)
  {
    if a.who >= |s.tasks| then s
    else
      var t := s.tasks[a.who];
      match (a.move, t.stage)
      case (Start, Before) =>
        if s.part.Some? then
          s.(contents := s.contents[s.part.value := []],
             tasks := s.tasks[a.who := t.(stage := Open, file := s.part.value, done := 0, pos := 0)])
        else
          s.(contents := s.contents + [[]], part := Some(|s.contents|),
             tasks := s.tasks[a.who := t.(stage := Open, file := |s.contents|, done := 0, pos := 0)])
      case (Write, Open) =>
        if t.done + 1 >= |t.chunks| then s
        else
          var end := NextPos(buffer, t.pos, Upto(t.chunks, t.done), |t.chunks[t.done]|);
          Written(s, t, end).(tasks := s.tasks[a.who := t.(done := t.done + 1, pos := end)])
      case (Finish, Open) =>
        if t.done + 1 < |t.chunks| then s
        else
          var s1 := Written(s, t, |Concat(t.chunks)|);
          if s.part.None? then s1.(tasks := s.tasks[a.who := t.(stage := Failed)])
          else s1.(target := s.part, part := None, wanted := Some(Concat(t.chunks)),
                   tasks := s.tasks[a.who := t.(stage := Succeeded)])
      case (Abort, Open) =>
        Written(s, t, Upto(t.chunks, t.done)).(part := None, tasks := s.tasks[a.who := t.(stage := Failed)])
      case _ => s
  }

  /** An open pull writes all chunks but the last one by one, finishes only with its last, and succeeds then exactly
      when the `.part` name is still there; that file becomes the target. */
  lemma StepsOfPull(buffer: nat, s: State, who: nat)
    requires Fits(s) && who < |s.tasks| && s.tasks[who].stage.Open?
    ensures var t, last := s.tasks[who], s.tasks[who].done + 1 >= |s.tasks[who].chunks|;
      var w, f := Step(buffer, s, Action(who, Write)), Step(buffer, s, Action(who, Finish));
      && (last ==> w == s) && (!last ==> f == s)
      && (!last ==> w.tasks[who].stage.Open? && w.tasks[who].done == t.done + 1 && w.part == s.part
                    && w.target == s.target && w.wanted == s.wanted)
      && (last && s.part.Some? ==> f.tasks[who].stage.Succeeded? && f.target == s.part && f.part.None?
                                   && f.wanted == Some(Concat(t.chunks)))
      && (last && s.part.None? ==> f.tasks[who].stage.Failed? && f.target == s.target && f.part.None?
                                   && f.wanted == s.wanted)
    ensures var a := Step(buffer, s, Action(who, Abort));
      a.tasks[who].stage.Failed? && a.target == s.target && a.part.None? && a.wanted == s.wanted
  {
    hide Flushed, NextPos;
  }

  lemma UptoNext(chunks: seq<Bytes>, k: nat)
    requires k < |chunks|
    ensures Upto(chunks, k + 1) == Upto(chunks, k) + |chunks[k]|
  {
    assert chunks[..k + 1] == chunks[..k] + [chunks[k]];
    ConcatSnoc(chunks[..k], chunks[k]);
  }

  lemma StepFits(buffer: nat, s: State, a: Action)
    requires Fits(s)
    ensures Fits(Step(buffer, s, a))
  {
    hide Upto, Flushed;
    if a.who < |s.tasks| && s.tasks[a.who].done < |s.tasks[a.who].chunks| {
      UptoNext(s.tasks[a.who].chunks, s.tasks[a.who].done);
    }
  }

  function After(buffer: nat, s: State, run: seq<Action>): (t: State)
    requires Fits(s)
    ensures Fits(t)
    decreases |run|
  {
    if run == [] then s
    else
      StepFits(buffer, s, run[0]);
      After(buffer, Step(buffer, s, run[0]), run[1..])
  }

  /** The target is there exactly when some pull succeeded, and holds what the last one reported. */
  ghost predicate Right(s: State)
    requires Fits(s)
  {
    s.wanted == if s.target.None? then None else Some(s.contents[s.target.value])
  }

  // ---------------------------------------------------------------- one pull at a time

  ghost predicate AtMostOneOpen(s: State) {
    forall i, j :: 0 <= i < |s.tasks| && 0 <= j < |s.tasks| && s.tasks[i].stage.Open? && s.tasks[j].stage.Open?
      ==> i == j
  }

  /** No pull starts while another one is under way. */
  ghost predicate OneAtATime(buffer: nat, s: State, run: seq<Action>)
    requires Fits(s)
    decreases |run|
  {
    AtMostOneOpen(s) &&
    (run != [] ==> Fits(Step(buffer, s, run[0])) && OneAtATime(buffer, Step(buffer, s, run[0]), run[1..]))
  }

  /** The handle of an open pull is on the file with the `.part` name, which so far holds the start of its data. */
  ghost predicate InHand(s: State, t: Task) {
    t.stage.Open? ==>
      && s.part == Some(t.file) && s.target != s.part && t.file < |s.contents| && t.pos <= |Concat(t.chunks)|
      && s.contents[t.file] == Concat(t.chunks)[..t.pos]
  }

  ghost predicate Good(s: State) {
    && Fits(s) && Right(s)
    && (s.part.Some? ==> exists i :: 0 <= i < |s.tasks| && s.tasks[i].stage.Open?)
    && forall i :: 0 <= i < |s.tasks| ==> InHand(s, s.tasks[i])
  }

  /** Written on from where it is, a file that holds the start of the data holds more of it. */
  lemma WritesOn(data: Bytes, pos: nat, end: nat)
    requires pos <= end <= |data|
    ensures Flushed(data[..pos], data, pos, end) == data[..end]
  {
    assert data[..pos] + data[pos..end] == data[..end];
    assert data[..pos][..pos] == data[..pos];
  }

  lemma GoodKept(buffer: nat, s: State, a: Action)
    requires Good(s) && AtMostOneOpen(s) && AtMostOneOpen(Step(buffer, s, a))
    ensures Good(Step(buffer, s, a))
  {
    StepFits(buffer, s, a);
    if a.who < |s.tasks| && s.tasks[a.who].stage.Before? {
      StartKept(buffer, s, a);
    } else if a.who < |s.tasks| && s.tasks[a.who].stage.Open? {
      OpenKept(buffer, s, a);
    }
  }

  lemma StartKept(buffer: nat, s: State, a: Action)
    requires Good(s) && a.who < |s.tasks| && s.tasks[a.who].stage.Before?
    requires AtMostOneOpen(Step(buffer, s, a)) && Fits(Step(buffer, s, a))
    ensures Good(Step(buffer, s, a))
  {
    var s' := Step(buffer, s, a);
    if a.move.Start? {
      assert s'.tasks[a.who].stage.Open? && Concat(s'.tasks[a.who].chunks)[..0] == [];
      assert forall i :: 0 <= i < |s.tasks| && s.tasks[i].stage.Open? ==> i != a.who && s'.tasks[i].stage.Open?;
    }
  }

  lemma OpenKept(buffer: nat, s: State, a: Action)
    requires Good(s) && AtMostOneOpen(s) && a.who < |s.tasks| && s.tasks[a.who].stage.Open?
    requires Fits(Step(buffer, s, a))
    ensures Good(Step(buffer, s, a))
  {
    hide Flushed, Upto;
    var t, s' := s.tasks[a.who], Step(buffer, s, a);
    var data := Concat(t.chunks);
    forall end | t.pos <= end <= |data|
      ensures Flushed(data[..t.pos], data, t.pos, end) == data[..end]
    {
      WritesOn(data, t.pos, end);
    }
    assert data[..|data|] == data;
    assert InHand(s, t);
    assert s'.tasks[a.who].stage.Open? || forall i :: 0 <= i < |s'.tasks| ==> !s'.tasks[i].stage.Open?;
  }

  /** All or nothing: as long as pulls of one target do not overlap, the target is at every moment
      exactly the file of the last pull that succeeded, however the others were cut short. */
  lemma {:induction false} ApartIsAllOrNothing(buffer: nat, s: State, run: seq<Action>)
    requires Good(s) && OneAtATime(buffer, s, run)
    ensures Right(After(buffer, s, run))
    decreases |run|
  {
    if run != [] {
      StepFits(buffer, s, run[0]);
      assert AtMostOneOpen(Step(buffer, s, run[0]));
      GoodKept(buffer, s, run[0]);
      ApartIsAllOrNothing(buffer, Step(buffer, s, run[0]), run[1..]);
    }
  }

  // ---------------------------------------------------------------- two pulls of one file at a time

  function NewTask(chunks: seq<Bytes>): Task { Task(chunks, Before, 0, 0, 0) }

  function Two(chunks: seq<Bytes>): (s: State)
    ensures Fits(s)
  {
    State([], None, None, [NewTask(chunks), NewTask(chunks)], None)
  }

  /** How far a handle has written after the first `k` chunks. */
  function PosAt(buffer: nat, chunks: seq<Bytes>, k: nat): (p: nat)
    requires k <= |chunks|
    ensures p <= Upto(chunks, k)
  {
    if k == 0 then 0
    else
      UptoNext(chunks, k - 1);
      NextPos(buffer, PosAt(buffer, chunks, k - 1), Upto(chunks, k - 1), |chunks[k - 1]|)
  }

  /** How far it has written when the last chunk arrives. */
  function Last(buffer: nat, chunks: seq<Bytes>): (p: nat)
    ensures p <= |Concat(chunks)|
  {
    if chunks == [] then 0 else PosAt(buffer, chunks, |chunks| - 1)
  }

  /** What the rest of the file makes of an emptied `.part` file. */
  function Left(buffer: nat, chunks: seq<Bytes>): Bytes {
    Flushed([], Concat(chunks), Last(buffer, chunks), |Concat(chunks)|)
  }

  function Writes(n: nat): seq<Action> { if n == 0 then [] else Writes(n - 1) + [Action(0, Write)] }

  lemma {:induction false} AfterThen(buffer: nat, s: State, run: seq<Action>, a: Action)
    requires Fits(s)
    ensures After(buffer, s, run + [a]) == Step(buffer, After(buffer, s, run), a)
    decreases |run|
  {
    hide Step;
    if run == [] {
      assert run + [a] == [a];
      StepFits(buffer, s, a);
      assert [a][1..] == [];
    } else {
      StepFits(buffer, s, run[0]);
      assert (run + [a])[1..] == run[1..] + [a];
      AfterThen(buffer, Step(buffer, s, run[0]), run[1..], a);
    }
  }

  function Underway(buffer: nat, chunks: seq<Bytes>, n: nat): State
    requires n <= |chunks|
  {
    var pos := PosAt(buffer, chunks, n);
    State([Concat(chunks)[..pos]], Some(0), None, [Task(chunks, Open, 0, n, pos), NewTask(chunks)], None)
  }

  /** The first pull alone, after `n` of its chunks. */
  lemma {:induction false} FirstPart(buffer: nat, chunks: seq<Bytes>, n: nat)
    requires n < |chunks|
    ensures After(buffer, Two(chunks), [Action(0, Start)] + Writes(n)) == Underway(buffer, chunks, n)
  {
    hide Flushed, Upto, NextPos;
    var s := Two(chunks);
    if n == 0 {
      assert [Action(0, Start)] + Writes(0) == [] + [Action(0, Start)];
      AfterThen(buffer, s, [], Action(0, Start));
      assert Concat(chunks)[..0] == [] && s.contents + [[]] == [[]];
      assert s.tasks[0 := Task(chunks, Open, 0, 0, 0)] == [Task(chunks, Open, 0, 0, 0), NewTask(chunks)];
    } else {
      var run := [Action(0, Start)] + Writes(n - 1);
      FirstPart(buffer, chunks, n - 1);
      assert [Action(0, Start)] + Writes(n) == run + [Action(0, Write)];
      AfterThen(buffer, s, run, Action(0, Write));
      PosGrows(buffer, chunks, n - 1, n);
      WritesOn(Concat(chunks), PosAt(buffer, chunks, n - 1), PosAt(buffer, chunks, n));
    }
  }

  /** The run that damages the target: the second pull starts just before the first one's last chunk. */
  function Crossing(n: nat): seq<Action> {
    [Action(0, Start)] + Writes(n) + [Action(1, Start)] + [Action(0, Finish)]
  }

  /** The second pull empties the `.part` file, the first one writes its last bytes behind the hole,
      finds its digest right, because the digest was taken of the chunks and not of the file, and
      reports success over what is left. */
  lemma CrossingLeaves(buffer: nat, chunks: seq<Bytes>)
    requires chunks != []
    ensures var t := After(buffer, Two(chunks), Crossing(|chunks| - 1));
      && |t.tasks| == 2 && t.tasks[0].stage.Succeeded? && t.wanted == Some(Concat(chunks))
      && t.target.Some? && t.contents[t.target.value] == Left(buffer, chunks)
  {
    hide Flushed, Upto, NextPos;
    var s, n := Two(chunks), |chunks| - 1;
    var run0 := [Action(0, Start)] + Writes(n);
    FirstPart(buffer, chunks, n);
    AfterThen(buffer, s, run0, Action(1, Start));
    var s1 := After(buffer, s, run0 + [Action(1, Start)]);
    assert s1 == State([[]], Some(0), None,
                       [Task(chunks, Open, 0, n, Last(buffer, chunks)), Task(chunks, Open, 0, 0, 0)], None);
    AfterThen(buffer, s, run0 + [Action(1, Start)], Action(0, Finish));
  }

  // ---------------------------------------------------------------- when overlap does no harm

  /** What is left is the file itself. */
  predicate Harmless(buffer: nat, chunks: seq<Bytes>) { Left(buffer, chunks) == Concat(chunks) }

  lemma FrontIsData(content: Bytes, data: Bytes, pos: nat)
    requires pos <= |data| && IsStart(content, data) && (pos <= |content| || data[..pos] == Zeros(pos))
    ensures Front(content, pos) == data[..pos]
  {
    if pos > |content| {
      assert forall i :: |content| <= i < pos ==> data[i] == data[..pos][i];
    }
  }

  lemma Joins<T>(d: seq<T>, a: nat, b: nat, c: nat)
    requires a <= b <= c <= |d|
    ensures d[..a] + d[a..b] + d[b..c] == d[..c]
  {
  }

  lemma FlushedStart(content: Bytes, data: Bytes, pos: nat, end: nat)
    requires pos < end <= |data| && IsStart(content, data)
    requires pos <= |content| || data[..pos] == Zeros(pos)
    ensures var c := Flushed(content, data, pos, end); IsStart(c, data) && |c| >= end
  {
    hide Front, Zeros;
    FrontIsData(content, data, pos);
    if end <= |content| {
      Joins(data, pos, end, |content|);
      assert content[end..] == data[end..|content|];
    } else {
      Joins(data, pos, end, end);
      assert data[end..end] == [];
    }
  }

  /** In a harmless file everything written before the last chunk is zeros, and the last chunk is not empty
      unless the file is. */
  lemma HarmlessMeans(buffer: nat, chunks: seq<Bytes>)
    requires Harmless(buffer, chunks)
    ensures var data, pos := Concat(chunks), Last(buffer, chunks);
      data[..pos] == Zeros(pos) && (pos == |data| ==> data == [])
  {
    var data, pos := Concat(chunks), Last(buffer, chunks);
    if pos < |data| {
      assert [] + Zeros(pos) == Zeros(pos);
      assert Left(buffer, chunks)[..pos] == Zeros(pos);
    }
  }

  lemma {:induction false} PosGrows(buffer: nat, chunks: seq<Bytes>, j: nat, k: nat)
    requires j <= k <= |chunks|
    ensures PosAt(buffer, chunks, j) <= PosAt(buffer, chunks, k)
    decreases k
  {
    if j < k {
      PosGrows(buffer, chunks, j, k - 1);
      UptoNext(chunks, k - 1);
    }
  }

  ghost predicate CalmTask(buffer: nat, chunks: seq<Bytes>, t: Task) {
    && t.chunks == chunks
    && (t.stage.Open? ==>
          (t.done < |chunks| || chunks == []) && t.done <= |chunks| && t.pos == PosAt(buffer, chunks, t.done))
  }

  ghost predicate IsStart(content: Bytes, data: Bytes) {
    |content| <= |data| && content == data[..|content|]
  }

  /** Every file holds the start of the data, and the target all of it. */
  ghost predicate Calm(buffer: nat, chunks: seq<Bytes>, s: State) {
    var data := Concat(chunks);
    && Fits(s) && |s.tasks| == 2
    && (forall i :: 0 <= i < 2 ==> CalmTask(buffer, chunks, s.tasks[i]))
    && (forall i :: 0 <= i < 2 && s.tasks[i].stage.Open? && s.part.Some? ==> s.part.value == s.tasks[i].file)
    && (forall i, j :: 0 <= i < 2 && 0 <= j < 2 && s.tasks[i].stage.Open? && s.tasks[j].stage.Before? ==> s.part.Some?)
    && (forall f :: 0 <= f < |s.contents| ==> IsStart(s.contents[f], data))
    && (s.part.Some? ==> s.part != s.target)
    && (if s.target.None? then s.wanted == None else s.wanted == Some(data) && s.contents[s.target.value] == data)
  }

  /** Writing on keeps a start of the data a start, and never shortens it. */
  lemma CalmWrite(buffer: nat, chunks: seq<Bytes>, content: Bytes, done: nat, end: nat)
    requires Harmless(buffer, chunks) && IsStart(content, Concat(chunks))
    requires done <= |chunks| && (done < |chunks| || chunks == [])
    requires PosAt(buffer, chunks, done) <= end <= |Concat(chunks)|
    ensures var c := Flushed(content, Concat(chunks), PosAt(buffer, chunks, done), end);
      IsStart(c, Concat(chunks)) && (content == Concat(chunks) ==> c == Concat(chunks))
      && (end == |Concat(chunks)| ==> c == Concat(chunks))
  {
    hide Left;
    var data, pos, last := Concat(chunks), PosAt(buffer, chunks, done), Last(buffer, chunks);
    HarmlessMeans(buffer, chunks);
    if chunks != [] {
      PosGrows(buffer, chunks, done, |chunks| - 1);
    }
    assert data[..last] == Zeros(last) && pos <= last;
    assert data[..pos] == data[..last][..pos] == Zeros(pos) by { ZerosPrefix(pos, last); }
    assert data[..|data|] == data;
    if pos < end { FlushedStart(content, data, pos, end); }
    if content == data && pos < end { assert data[..pos] + data[pos..end] + data[end..] == data; }
  }

  lemma ZerosPrefix(a: nat, b: nat)
    requires a <= b
    ensures Zeros(b)[..a] == Zeros(a)
  {
  }

  /** The files and the target of a calm state are calm after a write through the handle of an open pull. */
  ghost predicate CalmFiles(chunks: seq<Bytes>, s: State) {
    var data := Concat(chunks);
    && (s.target.Some? ==> s.target.value < |s.contents| && s.contents[s.target.value] == data)
    && forall f :: 0 <= f < |s.contents| ==> IsStart(s.contents[f], data)
  }

  lemma CalmWritten(buffer: nat, chunks: seq<Bytes>, s: State, t: Task, end: nat)
    requires Harmless(buffer, chunks) && CalmFiles(chunks, s) && CalmTask(buffer, chunks, t) && t.stage.Open?
    requires t.file < |s.contents| && t.pos <= end <= |Concat(chunks)|
    ensures CalmFiles(chunks, Written(s, t, end))
    ensures end == |Concat(chunks)| ==> Written(s, t, end).contents[t.file] == Concat(chunks)
  {
    hide Harmless, Flushed, PosAt, IsStart;
    CalmWrite(buffer, chunks, s.contents[t.file], t.done, end);
  }

  lemma CalmStart(buffer: nat, chunks: seq<Bytes>, s: State, who: nat)
    requires Calm(buffer, chunks, s) && who < |s.tasks| && s.tasks[who].stage.Before?
    requires Fits(Step(buffer, s, Action(who, Start)))
    ensures Calm(buffer, chunks, Step(buffer, s, Action(who, Start)))
  {
    hide PosAt, Upto;
    PosAtStart(buffer, chunks);
  }

  lemma CalmOpen(buffer: nat, chunks: seq<Bytes>, s: State, a: Action)
    requires Harmless(buffer, chunks) && Calm(buffer, chunks, s) && a.who < |s.tasks| && s.tasks[a.who].stage.Open?
    requires Fits(Step(buffer, s, a))
    ensures Calm(buffer, chunks, Step(buffer, s, a))
  {
    hide Harmless, Flushed, Upto, NextPos, PosAt, IsStart;
    var t := s.tasks[a.who];
    assert CalmTask(buffer, chunks, t) && CalmFiles(chunks, s);
    match a.move {
      case Write =>
        if t.done + 1 < |chunks| {
          NextPosAt(buffer, chunks, t.done);
          PosGrows(buffer, chunks, t.done, t.done + 1);
          CalmWritten(buffer, chunks, s, t, PosAt(buffer, chunks, t.done + 1));
        }
      case Finish => CalmWritten(buffer, chunks, s, t, |Concat(chunks)|);
      case Abort => CalmWritten(buffer, chunks, s, t, Upto(chunks, t.done));
      case Start =>
    }
  }

  lemma CalmKept(buffer: nat, chunks: seq<Bytes>, s: State, a: Action)
    requires Harmless(buffer, chunks) && Calm(buffer, chunks, s)
    ensures Calm(buffer, chunks, Step(buffer, s, a))
  {
    StepFits(buffer, s, a);
    if a.who < |s.tasks| && s.tasks[a.who].stage.Open? {
      CalmOpen(buffer, chunks, s, a);
    } else if a.who < |s.tasks| && s.tasks[a.who].stage.Before? && a.move.Start? {
      CalmStart(buffer, chunks, s, a.who);
    }
  }

  lemma PosAtStart(buffer: nat, chunks: seq<Bytes>)
    ensures PosAt(buffer, chunks, 0) == 0
  {
  }

  lemma NextPosAt(buffer: nat, chunks: seq<Bytes>, k: nat)
    requires k < |chunks|
    ensures PosAt(buffer, chunks, k + 1)
         == NextPos(buffer, PosAt(buffer, chunks, k), Upto(chunks, k), |chunks[k]|)
  {
  }

  lemma {:induction false} CalmRuns(buffer: nat, chunks: seq<Bytes>, s: State, run: seq<Action>)
    requires Harmless(buffer, chunks) && Calm(buffer, chunks, s)
    ensures Calm(buffer, chunks, After(buffer, s, run))
    decreases |run|
  {
    hide Harmless, Calm, Step;
    assert Fits(s) by { CalmFits(buffer, chunks, s); }
    if run != [] {
      StepFits(buffer, s, run[0]);
      CalmKept(buffer, chunks, s, run[0]);
      CalmRuns(buffer, chunks, Step(buffer, s, run[0]), run[1..]);
    }
  }

  lemma CalmFits(buffer: nat, chunks: seq<Bytes>, s: State)
    requires Calm(buffer, chunks, s)
    ensures Fits(s) && Right(s)
  {
  }

  /** Exactly when overlap damages: two pulls of one file have a run that leaves a target other than
      the one reported, if and only if the bytes that a handle writes with and after the last chunk,
      put into an empty file, are not the whole file. */
  lemma OverlapDamagesIff(buffer: nat, chunks: seq<Bytes>)
    ensures (exists run :: !Right(After(buffer, Two(chunks), run))) <==> !Harmless(buffer, chunks)
  {
    if Harmless(buffer, chunks) {
      forall run ensures Right(After(buffer, Two(chunks), run)) {
        CalmRuns(buffer, chunks, Two(chunks), run);
        CalmFits(buffer, chunks, After(buffer, Two(chunks), run));
      }
    } else {
      if chunks != [] {
        CrossingLeaves(buffer, chunks);
        assert !Right(After(buffer, Two(chunks), Crossing(|chunks| - 1)));
      }
    }
  }

  /** When every chunk is larger than the buffer, a handle has written all of them. */
  lemma {:induction false} LargeShardsGoThrough(buffer: nat, chunks: seq<Bytes>, k: nat)
    requires k <= |chunks| && forall i :: 0 <= i < k ==> |chunks[i]| > buffer
    ensures PosAt(buffer, chunks, k) == Upto(chunks, k)
  {
    if k == 0 {
      assert chunks[..0] == [];
    } else {
      LargeShardsGoThrough(buffer, chunks, k - 1);
      UptoNext(chunks, k - 1);
    }
  }

  /** With shards larger than the buffer, as the default ones are, overlap is harmless exactly for a
      file that is zeros up to its last shard. */
  lemma LargeShardsIff(buffer: nat, chunks: seq<Bytes>)
    requires chunks != [] && chunks[|chunks| - 1] != []
    requires forall i :: 0 <= i < |chunks| - 1 ==> |chunks[i]| > buffer
    ensures var front := Concat(chunks[..|chunks| - 1]);
      Harmless(buffer, chunks) <==> front == Zeros(|front|)
  {
    var n := |chunks| - 1;
    var front, data := Concat(chunks[..n]), Concat(chunks);
    LargeShardsGoThrough(buffer, chunks, n);
    ConcatSplits(chunks, n);
    UptoNext(chunks, n);
    assert data[..|front|] == front && data[..|front|] + data[|front|..] == data;
    assert Left(buffer, chunks) == Zeros(|front|) + data[|front|..] by {
      assert [] + Zeros(|front|) == Zeros(|front|);
      assert Zeros(|front|) + data[|front|..] + [] == Zeros(|front|) + data[|front|..];
    }
    assert (Zeros(|front|) + data[|front|..])[..|front|] == Zeros(|front|);
  }

  /** A file whose shards before the last fit into the buffer together is safe. */
  lemma SmallFilesAreSafe(buffer: nat, chunks: seq<Bytes>)
    requires chunks != [] && Upto(chunks, |chunks| - 1) < buffer
    ensures Harmless(buffer, chunks)
  {
    NothingWritten(buffer, chunks, |chunks| - 1);
    var data := Concat(chunks);
    assert Zeros(0) == [] && data[0..] == data && [] + data + [] == data;
  }

  lemma {:induction false} NothingWritten(buffer: nat, chunks: seq<Bytes>, k: nat)
    requires k < |chunks| && Upto(chunks, k) < buffer
    ensures PosAt(buffer, chunks, k) == 0
  {
    if k > 0 {
      UptoNext(chunks, k - 1);
      NothingWritten(buffer, chunks, k - 1);
    }
  }
}
