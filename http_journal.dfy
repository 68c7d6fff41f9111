/**
 * The summary that the HTTP journal records for a streamed chat completion: a
 * Server-Sent-Events body ("data:" framing of the WHATWG HTML Living Standard,
 * section 9.2 "Server-sent events") is read line by line, the text deltas are
 * concatenated and fragmented tool calls are reassembled per call index.
 *
 * JSON decoding of one event payload is the parameter `decode`; its result keeps
 * only the shape the summariser inspects.
 */
module HttpJournal {
  import opened Wrappers
  import Strings

  /** The `index` member of a tool-call fragment: a JSON number (a float64 in Go) or anything else. */
  datatype IndexValue = NumericIndex(n: real) | NotNumeric

  /**
   * The `function` member of a tool-call fragment. For an object, `name` is its
   * name when that is a string and `arguments` its `arguments` member when that is a string.
   */
  datatype FunctionValue =
    | FunctionAbsent
    | FunctionNotObject
    | FunctionObject(name: Option<string>, arguments: Option<string>)

  /** One element of `delta.tool_calls`. */
  datatype ToolCallChunk = ChunkNotObject | ChunkObject(index: IndexValue, fn: FunctionValue)

  /**
   * `choices[0].delta`: `content` when it is a string, `toolCalls` when
   * `tool_calls` is an array.
   */
  datatype Delta = Delta(content: Option<string>, toolCalls: Option<seq<ToolCallChunk>>)

  /** An element of `choices`; `delta` is None when it is missing or not an object. */
  datatype Choice = ChoiceNotObject | ChoiceObject(delta: Option<Delta>)

  /** A decoded payload; `choices` is None when it is missing or not an array. */
  datatype Chunk = Malformed | Decoded(choices: Option<seq<Choice>>)

  /** A tool-call fragment that carries a numeric index. */
  datatype Fragment = Fragment(index: int, fn: FunctionValue)

  /** The in-progress record of one tool call: the first fragment's `function` and the argument text so far. */
  datatype Builder = Builder(fn: FunctionValue, arguments: string)

  /**
   * One entry of `significant_events`. `index` names the call the entry belongs
   * to (the recorded entry itself does not carry it); `function` is the stored
   * `function` value after finalisation and `arguments` the argument builder's text.
   */
  datatype ToolCallEvent = ToolCallEvent(index: int, fn: FunctionValue, arguments: string)

  /** What the journal records: `aggregated_text` and one builder per call index. */
  datatype StreamSummary = StreamSummary(text: string, calls: map<int, Builder>)

  const DataPrefix := "data:"
  const DoneSentinel := "[DONE]"

  predicate IsDataLine(line: string) {
    Strings.HasPrefix(line, DataPrefix)
  }

  /** The JSON text of a data line. */
  function Payload(line: string): string {
    Strings.TrimSpace(Strings.TrimPrefix(line, DataPrefix))
  }

  predicate IsDone(line: string) {
    IsDataLine(line) && Payload(line) == DoneSentinel
  }

  /** Go's `int(f)` on a float64: truncation toward zero. */
  function Truncate(x: real): (r: int)
    ensures x >= 0.0 ==> r as real <= x < r as real + 1.0
    ensures x < 0.0 ==> r as real - 1.0 < x <= r as real
  {
    if x >= 0.0 then x.Floor else -((-x).Floor)
  }

  // ---------------------------------------------------------------------------
  // Reference definition of the summary
  // ---------------------------------------------------------------------------

  /** The delta a decoded payload contributes, or None when the line is skipped. */
  function AcceptedDelta(chunk: Chunk): Option<Delta> {
    match chunk
    case Malformed => None
    case Decoded(choices) =>
      if choices.None? || |choices.value| == 0 then None
      else match choices.value[0]
        case ChoiceNotObject => None
        case ChoiceObject(delta) => delta
  }

  /** The delta a line before the sentinel contributes. */
  function LineDelta(line: string, decode: string -> Chunk): Option<Delta> {
    if IsDataLine(line) && !IsDone(line) then AcceptedDelta(decode(Payload(line))) else None
  }

  predicate NoDone(lines: seq<string>) {
    forall k :: 0 <= k < |lines| ==> !IsDone(lines[k])
  }

  /** The lines before the first `[DONE]` data line. */
  function BeforeDone(lines: seq<string>): (r: seq<string>)
    ensures NoDone(r)
  {
    if lines == [] || IsDone(lines[0]) then [] else [lines[0]] + BeforeDone(lines[1..])
  }

  /** The accepted deltas, in line order. */
  function Deltas(lines: seq<string>, decode: string -> Chunk): seq<Delta> {
    if lines == [] then []
    else
      var d := LineDelta(lines[|lines| - 1], decode);
      Deltas(lines[..|lines| - 1], decode) + (if d.Some? then [d.value] else [])
  }

  /** The text a delta adds to `aggregated_text`. */
  function ContentText(d: Delta): string {
    match d.content
    case Some(c) => if c != "" then c else ""
    case None => ""
  }

  /** The in-order concatenation of the deltas' texts. */
  function Text(ds: seq<Delta>): string {
    if ds == [] then "" else Text(ds[..|ds| - 1]) + ContentText(ds[|ds| - 1])
  }

  function FragmentOf(c: ToolCallChunk): Option<Fragment> {
    match c
    case ChunkObject(NumericIndex(n), f) => Some(Fragment(Truncate(n), f))
    case _ => None
  }

  /** The fragments of a `tool_calls` array that carry a numeric index, in order. */
  function ChunkFragments(cs: seq<ToolCallChunk>): seq<Fragment> {
    if cs == [] then []
    else
      var f := FragmentOf(cs[|cs| - 1]);
      ChunkFragments(cs[..|cs| - 1]) + (if f.Some? then [f.value] else [])
  }

  function DeltaFragments(d: Delta): seq<Fragment> {
    match d.toolCalls
    case Some(cs) => ChunkFragments(cs)
    case None => []
  }

  /** All indexed fragments of the accepted deltas, in arrival order. */
  function Fragments(ds: seq<Delta>): seq<Fragment> {
    if ds == [] then [] else Fragments(ds[..|ds| - 1]) + DeltaFragments(ds[|ds| - 1])
  }

  /** The argument text a fragment contributes. */
  function ArgumentText(f: FunctionValue): string {
    match f
    case FunctionObject(_, Some(a)) => a
    case _ => ""
  }

  /** The builders after one more fragment: a new index keeps this fragment's function. */
  function Step(b: map<int, Builder>, f: Fragment): map<int, Builder> {
    var prev := if f.index in b then b[f.index] else Builder(f.fn, "");
    b[f.index := Builder(prev.fn, prev.arguments + ArgumentText(f.fn))]
  }

  function BuildersOf(fs: seq<Fragment>): map<int, Builder> {
    if fs == [] then map[] else Step(BuildersOf(fs[..|fs| - 1]), fs[|fs| - 1])
  }

  /** The summary the journal records for a body made of `lines`. */
  function Summary(lines: seq<string>, decode: string -> Chunk): (r: StreamSummary)
    ensures r.calls.Keys == Indices(Fragments(Deltas(BeforeDone(lines), decode)))
  {
    var ds := Deltas(BeforeDone(lines), decode);
    BuildersOfCharacterised(Fragments(ds));
    StreamSummary(Text(ds), BuildersOf(Fragments(ds)))
  }

  /** The finalised event for a call: an object `function` gets the full argument text. */
  function FinalEvent(i: int, b: Builder): ToolCallEvent {
    match b.fn
    case FunctionObject(name, _) => ToolCallEvent(i, FunctionObject(name, Some(b.arguments)), b.arguments)
    case _ => ToolCallEvent(i, b.fn, b.arguments)
  }

  // ---------------------------------------------------------------------------
  // Independent description of the per-index records
  // ---------------------------------------------------------------------------

  function Indices(fs: seq<Fragment>): set<int> {
    set k | 0 <= k < |fs| :: fs[k].index
  }

  /** The in-order concatenation of the argument texts of the fragments with index `i`. */
  function ArgumentsFor(fs: seq<Fragment>, i: int): string {
    if fs == [] then ""
    else if fs[0].index == i then ArgumentText(fs[0].fn) + ArgumentsFor(fs[1..], i)
    else ArgumentsFor(fs[1..], i)
  }

  /** The function value of the first fragment with index `i`. */
  function FirstFunction(fs: seq<Fragment>, i: int): FunctionValue
    requires i in Indices(fs)
  {
    if fs[0].index == i then fs[0].fn
    else
      assert i in Indices(fs[1..]) by {
        var k :| 0 <= k < |fs| && fs[k].index == i;
        assert fs[1..][k - 1] == fs[k];
      }
      FirstFunction(fs[1..], i)
  }

  lemma {:induction false} ArgumentsForAppend(fs: seq<Fragment>, f: Fragment, i: int)
    ensures ArgumentsFor(fs + [f], i)
         == ArgumentsFor(fs, i) + (if f.index == i then ArgumentText(f.fn) else "")
  {
    if fs != [] {
      assert (fs + [f])[1..] == fs[1..] + [f];
      ArgumentsForAppend(fs[1..], f, i);
    }
  }

  lemma {:induction false} FirstFunctionAppend(fs: seq<Fragment>, f: Fragment, i: int)
    requires i in Indices(fs)
    ensures i in Indices(fs + [f]) && FirstFunction(fs + [f], i) == FirstFunction(fs, i)
  {
    var k :| 0 <= k < |fs| && fs[k].index == i;
    assert (fs + [f])[k] == fs[k];
    if fs[0].index != i {
      assert fs[1..][k - 1] == fs[k];
      assert (fs + [f])[1..] == fs[1..] + [f];
      FirstFunctionAppend(fs[1..], f, i);
    }
  }

  lemma {:induction false} FirstFunctionNew(fs: seq<Fragment>, f: Fragment)
    requires f.index !in Indices(fs)
    ensures f.index in Indices(fs + [f]) && FirstFunction(fs + [f], f.index) == f.fn
  {
    assert (fs + [f])[|fs|] == f;
    if fs != [] {
      assert fs[0] == (fs + [f])[0];
      assert Indices(fs[1..]) <= Indices(fs) by {
        forall k | 0 <= k < |fs| - 1 ensures fs[1..][k].index in Indices(fs) { assert fs[1..][k] == fs[k + 1]; }
      }
      assert (fs + [f])[1..] == fs[1..] + [f];
      FirstFunctionNew(fs[1..], f);
    }
  }

  /**
   * The builder map holds one entry per index that occurs, with the first
   * fragment's function and the in-order concatenation of that index's arguments.
   */
  lemma {:induction false} BuildersOfCharacterised(fs: seq<Fragment>)
    ensures BuildersOf(fs).Keys == Indices(fs)
    ensures forall i :: i in Indices(fs) ==>
      BuildersOf(fs)[i] == Builder(FirstFunction(fs, i), ArgumentsFor(fs, i))
  {
    if fs != [] {
      var init, f := fs[..|fs| - 1], fs[|fs| - 1];
      assert fs == init + [f];
      BuildersOfCharacterised(init);
      assert Indices(fs) == Indices(init) + {f.index} by {
        forall k | 0 <= k < |init| ensures init[k].index in Indices(fs) { assert init[k] == fs[k]; }
        forall i | i in Indices(fs) ensures i in Indices(init) + {f.index} {
          var k :| 0 <= k < |fs| && fs[k].index == i;
          if k < |init| { assert fs[k] == init[k]; }
        }
      }
      forall i | i in Indices(fs)
        ensures BuildersOf(fs)[i] == Builder(FirstFunction(fs, i), ArgumentsFor(fs, i))
      {
        ArgumentsForAppend(init, f, i);
        if i in Indices(init) {
          FirstFunctionAppend(init, f, i);
        } else {
          assert i == f.index;
          FirstFunctionNew(init, f);
          assert ArgumentsFor(init, i) == "" by { NoFragmentsNoArguments(init, i); }
        }
      }
    }
  }

  lemma {:induction false} NoFragmentsNoArguments(fs: seq<Fragment>, i: int)
    requires i !in Indices(fs)
    ensures ArgumentsFor(fs, i) == ""
  {
    if fs != [] {
      assert fs[0].index in Indices(fs);
      assert Indices(fs[1..]) <= Indices(fs) by {
        forall k | 0 <= k < |fs| - 1 ensures fs[1..][k].index in Indices(fs) { assert fs[1..][k] == fs[k + 1]; }
      }
      NoFragmentsNoArguments(fs[1..], i);
    }
  }

  /** The stored function of an index is that of the earliest fragment carrying it. */
  lemma {:induction false} FirstFunctionIsEarliest(fs: seq<Fragment>, i: int)
    requires i in Indices(fs)
    ensures exists k :: 0 <= k < |fs| && fs[k].index == i && fs[k].fn == FirstFunction(fs, i)
                        && forall j :: 0 <= j < k ==> fs[j].index != i
  {
    if fs[0].index != i {
      var k :| 0 <= k < |fs| && fs[k].index == i;
      assert fs[1..][k - 1] == fs[k];
      FirstFunctionIsEarliest(fs[1..], i);
      var m :| 0 <= m < |fs[1..]| && fs[1..][m].index == i && fs[1..][m].fn == FirstFunction(fs[1..], i)
               && forall j :: 0 <= j < m ==> fs[1..][j].index != i;
      assert fs[m + 1] == fs[1..][m];
      assert forall j :: 1 <= j < m + 1 ==> fs[j] == fs[1..][j - 1];
    }
  }

  // ---------------------------------------------------------------------------
  // Which lines matter
  // ---------------------------------------------------------------------------

  lemma {:induction false} BeforeDoneAppend(a: seq<string>, b: seq<string>)
    ensures NoDone(a) ==> BeforeDone(a + b) == a + BeforeDone(b)
    ensures !NoDone(a) ==> BeforeDone(a + b) == BeforeDone(a)
  {
    if a != [] {
      assert (a + b)[0] == a[0] && (a + b)[1..] == a[1..] + b;
      BeforeDoneAppend(a[1..], b);
      if !IsDone(a[0]) {
        assert NoDone(a) <==> NoDone(a[1..]) by {
          assert forall k :: 1 <= k < |a| ==> a[k] == a[1..][k - 1];
        }
        assert BeforeDone(a + b) == [a[0]] + BeforeDone(a[1..] + b);
        assert a == [a[0]] + a[1..];
      } else {
        assert !NoDone(a);
      }
    } else {
      assert a + b == b;
    }
  }

  lemma {:induction false} DeltasAppend(a: seq<string>, b: seq<string>, decode: string -> Chunk)
    ensures Deltas(a + b, decode) == Deltas(a, decode) + Deltas(b, decode)
    decreases |b|
  {
    if b == [] {
      assert a + b == a;
    } else {
      var init := b[..|b| - 1];
      assert (a + b)[..|a + b| - 1] == a + init;
      assert (a + b)[|a + b| - 1] == b[|b| - 1];
      DeltasAppend(a, init, decode);
    }
  }

  /** A line that is not the sentinel and contributes no delta leaves the summary as if it were absent. */
  lemma {:induction false} InertLineIgnored(a: seq<string>, line: string, b: seq<string>, decode: string -> Chunk)
    requires !IsDone(line) && LineDelta(line, decode).None?
    ensures Summary(a + [line] + b, decode) == Summary(a + b, decode)
  {
    InertLineDeltas(a, line, b, decode);
  }

  lemma {:induction false} InertLineDeltas(a: seq<string>, line: string, b: seq<string>, decode: string -> Chunk)
    requires !IsDone(line) && LineDelta(line, decode).None?
    ensures Deltas(BeforeDone(a + [line] + b), decode) == Deltas(BeforeDone(a + b), decode)
  {
    BeforeDoneSkipsLine(a, line, b);
    if NoDone(a) {
      DeltasDropInert(a, line, BeforeDone(b), decode);
    }
  }

  /** Cutting at the sentinel past a line that is not the sentinel keeps that line. */
  lemma {:induction false} BeforeDoneSkipsLine(a: seq<string>, line: string, b: seq<string>)
    requires !IsDone(line)
    ensures NoDone(a) ==> BeforeDone(a + [line] + b) == (a + [line]) + BeforeDone(b) && BeforeDone(a + b) == a + BeforeDone(b)
    ensures !NoDone(a) ==> BeforeDone(a + [line] + b) == BeforeDone(a + b)
  {
    var lb := [line] + b;
    assert a + [line] + b == a + lb;
    BeforeDoneAppend(a, lb);
    BeforeDoneAppend(a, b);
    assert lb[0] == line && lb[1..] == b;
    assert BeforeDone(lb) == [line] + BeforeDone(b);
    if NoDone(a) {
      assert a + ([line] + BeforeDone(b)) == (a + [line]) + BeforeDone(b);
    }
  }

  /** A line that yields no delta can be dropped from the accepted deltas. */
  lemma {:induction false} DeltasDropInert(a: seq<string>, line: string, c: seq<string>, decode: string -> Chunk)
    requires LineDelta(line, decode).None?
    ensures Deltas((a + [line]) + c, decode) == Deltas(a + c, decode)
  {
    DeltasAppend(a + [line], c, decode);
    DeltasAppend(a, [line], decode);
    DeltasAppend(a, c, decode);
    assert Deltas([line], decode) == [] by { assert [line][..0] == []; }
    assert Deltas(a, decode) + [] == Deltas(a, decode);
  }

  /** Lines that do not start with `data:` contribute nothing. */
  lemma {:induction false} NonDataLineIgnored(a: seq<string>, line: string, b: seq<string>, decode: string -> Chunk)
    requires !IsDataLine(line)
    ensures Summary(a + [line] + b, decode) == Summary(a + b, decode)
  {
    InertLineIgnored(a, line, b, decode);
  }

  /**
   * A data line is skipped when its payload is malformed JSON, has no
   * non-empty `choices` array, has a `choices[0]` that is not an object, or has no `delta` object.
   */
  lemma {:induction false} SkippedLineIgnored(a: seq<string>, line: string, b: seq<string>, decode: string -> Chunk)
    requires IsDataLine(line) && !IsDone(line)
    requires var c := decode(Payload(line));
      || c.Malformed?
      || c.choices.None?
      || |c.choices.value| == 0
      || c.choices.value[0].ChoiceNotObject?
      || c.choices.value[0].delta.None?
    ensures Summary(a + [line] + b, decode) == Summary(a + b, decode)
  {
    InertLineIgnored(a, line, b, decode);
  }

  /** The first `[DONE]` line ends the stream: neither it nor anything after it has an effect. */
  lemma {:induction false} DoneEndsStream(a: seq<string>, line: string, b: seq<string>, decode: string -> Chunk)
    requires IsDone(line)
    ensures Summary(a + [line] + b, decode) == Summary(a, decode)
  {
    assert a + [line] + b == a + ([line] + b);
    BeforeDoneAppend(a, [line] + b);
    BeforeDoneAppend(a, []);
    assert a + [] == a;
    assert BeforeDone([line] + b) == [];
  }

  /** The summary's calls: one per index, keeping the first function and all argument fragments in order. */
  lemma {:induction false} SummaryCalls(lines: seq<string>, decode: string -> Chunk)
    ensures var fs := Fragments(Deltas(BeforeDone(lines), decode));
      && Summary(lines, decode).calls.Keys == Indices(fs)
      && forall i :: i in Indices(fs) ==>
           Summary(lines, decode).calls[i] == Builder(FirstFunction(fs, i), ArgumentsFor(fs, i))
  {
    BuildersOfCharacterised(Fragments(Deltas(BeforeDone(lines), decode)));
  }

  // ---------------------------------------------------------------------------
  // The scanner loop
  // ---------------------------------------------------------------------------

  lemma {:induction false} DeltasSnoc(prefix: seq<string>, line: string, decode: string -> Chunk)
    ensures LineDelta(line, decode).None? ==> Deltas(prefix + [line], decode) == Deltas(prefix, decode)
    ensures LineDelta(line, decode).Some? ==>
      Deltas(prefix + [line], decode) == Deltas(prefix, decode) + [LineDelta(line, decode).value]
  {
    assert (prefix + [line])[..|prefix|] == prefix;
    assert (prefix + [line])[|prefix|] == line;
  }

  /** One element of `tool_calls`: an object with a numeric index opens or extends that index's builder. */
  method FoldChunk(builders: map<int, Builder>, ghost before: seq<Fragment>, tc: ToolCallChunk)
    returns (builders': map<int, Builder>)
    requires builders == BuildersOf(before)
    ensures builders' == BuildersOf(before + (if FragmentOf(tc).Some? then [FragmentOf(tc).value] else []))
  {
    builders' := builders;
    if tc.ChunkNotObject? {
      assert before + [] == before;
      return;
    }
    if tc.index.NotNumeric? {
      assert before + [] == before;
      return;
    }
    var index := Truncate(tc.index.n);
    ghost var frag := Fragment(index, tc.fn);
    assert (before + [frag])[..|before|] == before;
    ghost var expected := Step(builders, frag);
    if index !in builders' {
      builders' := builders'[index := Builder(tc.fn, "")];
    }
    if tc.fn.FunctionObject? && tc.fn.arguments.Some? {
      var args := tc.fn.arguments.value;
      builders' := builders'[index := Builder(builders'[index].fn, builders'[index].arguments + args)];
    } else {
      assert builders'[index].arguments + "" == builders'[index].arguments;
      assert builders'[index := builders'[index]] == builders';
    }
    assert builders' == expected;
  }

  /** The loop over `tool_calls`. */
  method FoldChunks(builders: map<int, Builder>, ghost base: seq<Fragment>, chunks: seq<ToolCallChunk>)
    returns (builders': map<int, Builder>)
    requires builders == BuildersOf(base)
    ensures builders' == BuildersOf(base + ChunkFragments(chunks))
  {
    builders' := builders;
    var j := 0;
    assert base + ChunkFragments(chunks[..0]) == base;
    while j < |chunks|
      invariant j <= |chunks|
      invariant builders' == BuildersOf(base + ChunkFragments(chunks[..j]))
    {
      assert chunks[..j + 1][..j] == chunks[..j] && chunks[..j + 1][j] == chunks[j];
      ghost var before := base + ChunkFragments(chunks[..j]);
      ghost var f := FragmentOf(chunks[j]);
      assert base + ChunkFragments(chunks[..j + 1]) == before + (if f.Some? then [f.value] else []);
      builders' := FoldChunk(builders', before, chunks[j]);
      j := j + 1;
    }
    assert chunks[..j] == chunks;
  }

  /** One accepted delta: its text is appended and its tool-call fragments are folded into the builders. */
  method ApplyDelta(text: string, builders: map<int, Builder>, ghost ds: seq<Delta>, delta: Delta)
    returns (text': string, builders': map<int, Builder>)
    requires text == Text(ds) && builders == BuildersOf(Fragments(ds))
    ensures text' == Text(ds + [delta]) && builders' == BuildersOf(Fragments(ds + [delta]))
  {
    assert (ds + [delta])[..|ds|] == ds;
    text' := text;
    if delta.content.Some? && delta.content.value != "" {
      text' := text' + delta.content.value;
    }
    builders' := builders;
    if delta.toolCalls.Some? {
      builders' := FoldChunks(builders', Fragments(ds), delta.toolCalls.value);
    } else {
      assert Fragments(ds) + [] == Fragments(ds);
    }
  }

  /** A non-empty set has an element. */
  lemma NonEmptyHasElement(s: set<int>)
    requires s != {}
    ensures exists x :: x in s
  {
    if forall x :: x !in s {
      assert false;
    }
  }

  /** The indices the events belong to. */
  function EventIndices(events: seq<ToolCallEvent>): set<int> {
    set k | 0 <= k < |events| :: events[k].index
  }

  /** The final loop over the builder map, visited in an arbitrary order. */
  method Finalise(builders: map<int, Builder>) returns (events: seq<ToolCallEvent>)
    ensures forall k :: 0 <= k < |events| ==>
      events[k].index in builders && events[k] == FinalEvent(events[k].index, builders[events[k].index])
    ensures EventIndices(events) == builders.Keys
    ensures forall k, m :: 0 <= k < m < |events| ==> events[k].index != events[m].index
  {
    events := [];
    var remaining := builders.Keys;
    while remaining != {}
      invariant remaining <= builders.Keys
      invariant forall k :: 0 <= k < |events| ==>
        events[k].index in builders && events[k].index !in remaining
        && events[k] == FinalEvent(events[k].index, builders[events[k].index])
      invariant EventIndices(events) == builders.Keys - remaining
      invariant forall k, m :: 0 <= k < m < |events| ==> events[k].index != events[m].index
      decreases remaining
    {
      NonEmptyHasElement(remaining);
      var i :| i in remaining;
      ghost var prev := events;
      events := events + [FinalEvent(i, builders[i])];
      remaining := remaining - {i};
      assert EventIndices(events) == EventIndices(prev) + {i} by {
        assert forall k :: 0 <= k < |prev| ==> events[k] == prev[k];
        assert events[|prev|].index == i;
      }
    }
  }

  /** One scanned line: the sentinel stops the scan, a skipped line changes nothing, an accepted one is applied. */
  method ScanLine(text: string, builders: map<int, Builder>, ghost prefix: seq<string>,
                  line: string, decode: string -> Chunk)
    returns (done: bool, text': string, builders': map<int, Builder>)
    requires text == Text(Deltas(prefix, decode)) && builders == BuildersOf(Fragments(Deltas(prefix, decode)))
    ensures done == IsDone(line)
    ensures done ==> text' == text && builders' == builders
    ensures !done ==> text' == Text(Deltas(prefix + [line], decode))
                      && builders' == BuildersOf(Fragments(Deltas(prefix + [line], decode)))
  {
    DeltasSnoc(prefix, line, decode);
    done, text', builders' := false, text, builders;
    if !IsDataLine(line) {
      return;
    }
    var jsonData := Payload(line);
    if jsonData == DoneSentinel {
      done := true;
      return;
    }
    var chunk := decode(jsonData);
    if chunk.Malformed? {
      return;
    }
    var choices := chunk.choices;
    if choices.None? || |choices.value| == 0 {
      return;
    }
    if choices.value[0].ChoiceNotObject? {
      return;
    }
    if choices.value[0].delta.None? {
      return;
    }
    var delta := choices.value[0].delta.value;
    text', builders' := ApplyDelta(text, builders, Deltas(prefix, decode), delta);
  }

  lemma {:induction false} BeforeDoneIsPrefix(lines: seq<string>, n: nat)
    requires n <= |lines| && NoDone(lines[..n]) && (n == |lines| || IsDone(lines[n]))
    ensures BeforeDone(lines) == lines[..n]
  {
    BeforeDoneAppend(lines[..n], lines[n..]);
    assert lines[..n] + lines[n..] == lines;
    if n < |lines| {
      assert lines[n..][0] == lines[n];
    } else {
      assert lines[n..] == [];
    }
  }

  /**
   * Before the sentinel, an accepted line appends its non-empty content to the
   * aggregated text and leaves the text gathered so far unchanged.
   */
  lemma {:induction false} AcceptedLineAppendsText(a: seq<string>, line: string, decode: string -> Chunk)
    requires NoDone(a) && LineDelta(line, decode).Some?
    ensures Summary(a + [line], decode).text == Summary(a, decode).text + ContentText(LineDelta(line, decode).value)
  {
    BeforeDoneAppend(a, [line]);
    assert BeforeDone([line]) == [line] by {
      assert [line][1..] == [];
    }
    BeforeDoneIsPrefix(a, |a|);
    assert a[..|a|] == a;
    DeltasSnoc(a, line, decode);
    var ds := Deltas(a, decode);
    assert (ds + [LineDelta(line, decode).value])[..|ds|] == ds;
  }

  /**
   * `processStream`: the aggregated text and the significant events, in the
   * (unspecified) order in which the builder map is iterated.
   */
  method ProcessStream(lines: seq<string>, decode: string -> Chunk)
    returns (text: string, events: seq<ToolCallEvent>)
    ensures text == Summary(lines, decode).text
    ensures forall k :: 0 <= k < |events| ==>
      events[k].index in Summary(lines, decode).calls
      && events[k] == FinalEvent(events[k].index, Summary(lines, decode).calls[events[k].index])
    ensures EventIndices(events) == Summary(lines, decode).calls.Keys
    ensures forall k, m :: 0 <= k < m < |events| ==> events[k].index != events[m].index
  {
    text := "";
    var builders: map<int, Builder> := map[];
    var n := 0;
    while n < |lines|
      invariant n <= |lines| && NoDone(lines[..n])
      invariant text == Text(Deltas(lines[..n], decode))
      invariant builders == BuildersOf(Fragments(Deltas(lines[..n], decode)))
    {
      assert lines[..n + 1] == lines[..n] + [lines[n]];
      var done;
      done, text, builders := ScanLine(text, builders, lines[..n], lines[n], decode);
      if done {
        break;
      }
      n := n + 1;
    }
    BeforeDoneIsPrefix(lines, n);
    events := Finalise(builders);
  }
}
