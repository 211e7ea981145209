/** The body of the `fetchAIResponse` thunk: the configuration and HTTP
    status checks, then the fold over the decoded response chunks that
    collects the streamed reply and the `updateLastMessage` payloads it
    dispatches on the way.

    `JSON.parse` and the access `json.choices[0].delta?.content` are not
    modelled; a `Classifier` stands for both and sorts a payload string into
    one `Frame`. */
module StreamFold {

  import opened Wrappers
  import opened Text

  /** What parsing one `data: ` payload can lead to.
      - `ParseFail`: `JSON.parse` threw, reading `choices[0].delta` threw
        (no `choices`, an empty `choices`, a value without fields), or the
        content is truthy but its conversion to a string throws (such as
        `{"toString":1}`), so that `+=` throws before anything changes;
      - `DoneString`: the payload is the JSON string `"[DONE]"`;
      - `Delta(text)`: `choices[0].delta.content` is truthy, converts to a
        string, and `text` is what `+=` appends for it; `text` is empty for a truthy value whose
        string form is empty, such as `[]` or `[null]`;
      - `NoContent`: `choices[0].delta` or its `content` is missing or
        falsy (`""`, `0`, `null`, `false`). */
  datatype Frame = ParseFail | DoneString | Delta(content: string) | NoContent

  type Classifier = string -> Frame

  /** Only lines starting with this literal, space included, are payloads. */
  const DataPrefix: string := "data: "

  const Newline: char := '\n'

  /** The fold's running state: `fullResponse`, the payloads dispatched so
      far, and whether the early `return` for `"[DONE]"` has fired. */
  datatype Acc = Acc(full: string, dispatched: seq<string>, stopped: bool)

  const Start: Acc := Acc("", [], false)

  /** `r` is `acc` carried further: `fullResponse` has only grown, earlier
      payloads are kept, and a fired early return stays fired. */
  predicate Extended(acc: Acc, r: Acc)
  {
    && IsPrefix(acc.full, r.full)
    && |acc.dispatched| <= |r.dispatched| && r.dispatched[..|acc.dispatched|] == acc.dispatched
    && (acc.stopped ==> r.stopped)
  }

  /** One parsed payload: only extends the state, appends the text of a
      `Delta` (a string-convertible truthy content) to `fullResponse`,
      dispatches exactly for such a frame, and every payload it dispatches
      is the new `fullResponse`. */
  function StepFrame(acc: Acc, f: Frame): (r: Acc)
    ensures Extended(acc, r)
    ensures f.Delta? ==> r.full == acc.full + f.content
    ensures r.stopped <==> acc.stopped || f.DoneString?
    ensures |r.dispatched| == |acc.dispatched| + 1 <==> f.Delta?
    ensures r.dispatched == acc.dispatched || r.dispatched == acc.dispatched + [r.full]
    ensures r.dispatched == acc.dispatched ==> r.full == acc.full
  {
    match f
    case DoneString => acc.(stopped := true)
    case Delta(c) => acc.(full := acc.full + c, dispatched := acc.dispatched + [acc.full + c])
    case ParseFail => acc
    case NoContent => acc
  }

  /** The inner `for` loop over the lines of one chunk. */
  function FoldLines(acc: Acc, lines: seq<string>, parse: Classifier): (r: Acc)
    ensures acc.stopped ==> r == acc
    ensures Extended(acc, r)
    ensures |r.dispatched| > |acc.dispatched| ==> r.dispatched[|r.dispatched| - 1] == r.full
    ensures r.dispatched == acc.dispatched ==> r.full == acc.full
    decreases |lines|
  {
    if |lines| == 0 || acc.stopped then acc
    else
      var line := lines[0];
      var next := if StartsWith(line, DataPrefix) then StepFrame(acc, parse(line[|DataPrefix|..])) else acc;
      FoldLines(next, lines[1..], parse)
  }

  /** The outer `while` loop over the chunks the reader delivers; every chunk
      is split on its own, so a line spread over two chunks is two lines. */
  function FoldChunks(acc: Acc, chunks: seq<string>, parse: Classifier): (r: Acc)
    ensures acc.stopped ==> r == acc
    ensures Extended(acc, r)
    ensures |r.dispatched| > |acc.dispatched| ==> r.dispatched[|r.dispatched| - 1] == r.full
    ensures r.dispatched == acc.dispatched ==> r.full == acc.full
    decreases |chunks|
  {
    if |chunks| == 0 || acc.stopped then acc
    else FoldChunks(FoldLines(acc, Split(chunks[0], Newline), parse), chunks[1..], parse)
  }

  // ----- Reference definitions -----

  /** The frames of the `data: ` lines among `lines`, in order. */
  function LineFrames(lines: seq<string>, parse: Classifier): seq<Frame>
    decreases |lines|
  {
    if |lines| == 0 then []
    else
      (if StartsWith(lines[0], DataPrefix) then [parse(lines[0][|DataPrefix|..])] else [])
      + LineFrames(lines[1..], parse)
  }

  /** The frames of all `data: ` lines of all chunks, in order. */
  function ChunkFrames(chunks: seq<string>, parse: Classifier): seq<Frame>
    decreases |chunks|
  {
    if |chunks| == 0 then []
    else LineFrames(Split(chunks[0], Newline), parse) + ChunkFrames(chunks[1..], parse)
  }

  /** The frames before the first `DoneString`. */
  function BeforeDone(fs: seq<Frame>): (r: seq<Frame>)
    ensures |r| <= |fs| && r == fs[..|r|]
    ensures DoneString !in r
    ensures DoneString in fs ==> fs[|r|] == DoneString
    ensures DoneString !in fs ==> r == fs
  {
    if |fs| == 0 || fs[0] == DoneString then []
    else
      assert fs == [fs[0]] + fs[1..];
      [fs[0]] + BeforeDone(fs[1..])
  }

  /** The texts of the `Delta` frames among `fs`, in order. */
  function Contents(fs: seq<Frame>): (cs: seq<string>)
    ensures |cs| <= |fs|
  {
    if |fs| == 0 then []
    else (if fs[0].Delta? then [fs[0].content] else []) + Contents(fs[1..])
  }

  /** `base` extended by each of `cs` in turn, every intermediate value listed. */
  function Cumulative(base: string, cs: seq<string>): (r: seq<string>)
    ensures |r| == |cs|
    decreases |cs|
  {
    if |cs| == 0 then [] else [base + cs[0]] + Cumulative(base + cs[0], cs[1..])
  }

  /** The `fetch` response: unreachable, or a status and a body that yields
      `body` and then either ends (`bodyFails` false) or throws. */
  datatype Response = Unreachable | Reply(ok: bool, body: seq<string>, bodyFails: bool)

  datatype Config = Config(apiKey: Option<string>, apiEndpoint: Option<string>)

  /** How the thunk's promise settles. An early return yields `undefined`
      (`Fulfilled(None)`); the end of the body yields `{ text: fullResponse }`. */
  datatype Outcome = Fulfilled(value: Option<string>) | Rejected

  /** The `updateLastMessage` payloads dispatched, in order, and the outcome. */
  datatype Run = Run(dispatched: seq<string>, outcome: Outcome)

  /** A configuration value passes the `!value` test: present and non-empty. */
  predicate Present(v: Option<string>)
  {
    v.Some? && v.value != ""
  }

  /** The thunk body: the configuration check, the HTTP status check, the
      stream fold, and how the promise settles. */
  function FetchAIResponse(config: Config, response: Response, parse: Classifier): (run: Run)
    ensures !Present(config.apiKey) || !Present(config.apiEndpoint) ==> run == Run([], Rejected)
    ensures (response.Unreachable? || !response.ok) ==> run == Run([], Rejected)
    ensures Present(config.apiKey) && Present(config.apiEndpoint) && response.Reply? && response.ok ==>
      var frames := ChunkFrames(response.body, parse);
      var cs := Contents(BeforeDone(frames));
      && |run.dispatched| == |cs|
      && (forall i :: 0 <= i < |cs| ==> run.dispatched[i] == Concat(cs[..i + 1]))
      && (DoneString in frames ==> run.outcome == Fulfilled(None))
      && (DoneString !in frames && response.bodyFails ==> run.outcome == Rejected)
      && (DoneString !in frames && !response.bodyFails ==> run.outcome == Fulfilled(Some(Concat(cs))))
  {
    if !Present(config.apiKey) || !Present(config.apiEndpoint) then Run([], Rejected)
    else if response.Unreachable? || !response.ok then Run([], Rejected)
    else
      var acc := FoldChunks(Start, response.body, parse);
      StreamAccumulates(response.body, parse);
      if acc.stopped then Run(acc.dispatched, Fulfilled(None))
      else if response.bodyFails then Run(acc.dispatched, Rejected)
      else Run(acc.dispatched, Fulfilled(Some(acc.full)))
  }

  // ----- The fold agrees with the reference definitions -----

  /** The fold over a flat list of frames, stopping at `DoneString`. */
  function FoldFrames(acc: Acc, fs: seq<Frame>): Acc
    decreases |fs|
  {
    if |fs| == 0 || acc.stopped then acc else FoldFrames(StepFrame(acc, fs[0]), fs[1..])
  }

  lemma {:induction false} FoldFramesAppend(acc: Acc, a: seq<Frame>, b: seq<Frame>)
    ensures FoldFrames(acc, a + b) == FoldFrames(FoldFrames(acc, a), b)
    decreases |a|
  {
    if |a| == 0 {
      assert a + b == b;
    } else if acc.stopped {
      assert FoldFrames(acc, b) == acc;
    } else {
      assert (a + b)[1..] == a[1..] + b;
      FoldFramesAppend(StepFrame(acc, a[0]), a[1..], b);
    }
  }

  lemma {:induction false} FoldLinesIsFoldFrames(acc: Acc, lines: seq<string>, parse: Classifier)
    ensures FoldLines(acc, lines, parse) == FoldFrames(acc, LineFrames(lines, parse))
    decreases |lines|
  {
    if |lines| > 0 && !acc.stopped {
      var line := lines[0];
      var head := if StartsWith(line, DataPrefix) then [parse(line[|DataPrefix|..])] else [];
      var next := if StartsWith(line, DataPrefix) then StepFrame(acc, parse(line[|DataPrefix|..])) else acc;
      FoldLinesIsFoldFrames(next, lines[1..], parse);
      FoldFramesAppend(acc, head, LineFrames(lines[1..], parse));
      assert FoldFrames(acc, head) == next by {
        if StartsWith(line, DataPrefix) {
          assert FoldFrames(next, []) == next;
        }
      }
    } else if |lines| > 0 {
      assert FoldFrames(acc, LineFrames(lines, parse)) == acc;
    }
  }

  /** The nested loops of the source fold exactly the data-line frames. */
  lemma {:induction false} FoldChunksIsFoldFrames(acc: Acc, chunks: seq<string>, parse: Classifier)
    ensures FoldChunks(acc, chunks, parse) == FoldFrames(acc, ChunkFrames(chunks, parse))
    decreases |chunks|
  {
    if |chunks| > 0 {
      var lines := Split(chunks[0], Newline);
      if acc.stopped {
        assert FoldFrames(acc, ChunkFrames(chunks, parse)) == acc;
      } else {
        FoldLinesIsFoldFrames(acc, lines, parse);
        FoldChunksIsFoldFrames(FoldLines(acc, lines, parse), chunks[1..], parse);
        FoldFramesAppend(acc, LineFrames(lines, parse), ChunkFrames(chunks[1..], parse));
      }
    }
  }

  /** From a running state, the fold adds the concatenated delta texts before
      the first `DoneString`, dispatches one value per delta, and stops
      exactly when a `DoneString` occurs. */
  lemma {:induction false} FoldFramesClosedForm(acc: Acc, fs: seq<Frame>)
    requires !acc.stopped
    ensures var cs := Contents(BeforeDone(fs));
      FoldFrames(acc, fs)
        == Acc(acc.full + Concat(cs), acc.dispatched + Cumulative(acc.full, cs), DoneString in fs)
    decreases |fs|
  {
    if |fs| == 0 {
      assert acc.dispatched + [] == acc.dispatched;
      assert acc.full + "" == acc.full;
    } else {
      assert fs == [fs[0]] + fs[1..];
      var rest := fs[1..];
      match fs[0]
      case DoneString =>
        assert FoldFrames(acc.(stopped := true), rest) == acc.(stopped := true);
        assert acc.dispatched + [] == acc.dispatched;
        assert acc.full + "" == acc.full;
      case Delta(c) =>
        FoldFramesClosedForm(StepFrame(acc, fs[0]), rest);
        DeltaContents(fs);
      case ParseFail =>
        FoldFramesClosedForm(acc, rest);
        assert Contents(BeforeDone(fs)) == Contents(BeforeDone(rest));
      case NoContent =>
        FoldFramesClosedForm(acc, rest);
        assert Contents(BeforeDone(fs)) == Contents(BeforeDone(rest));
    }
  }

  /** The references seen through a leading `Delta`. */
  lemma DeltaContents(fs: seq<Frame>)
    requires |fs| > 0 && fs[0].Delta?
    ensures var c, cs' := fs[0].content, Contents(BeforeDone(fs[1..]));
      && Contents(BeforeDone(fs)) == [c] + cs'
      && Concat([c] + cs') == c + Concat(cs')
      && forall base :: Cumulative(base, [c] + cs') == [base + c] + Cumulative(base + c, cs')
  {
    var c, cs' := fs[0].content, Contents(BeforeDone(fs[1..]));
    assert BeforeDone(fs) == [fs[0]] + BeforeDone(fs[1..]);
    assert ([c] + cs')[1..] == cs';
  }

  /** Every intermediate value is `base` plus the first contents, in order. */
  lemma {:induction false} CumulativeIsPrefixConcat(base: string, cs: seq<string>)
    ensures forall i :: 0 <= i < |cs| ==> Cumulative(base, cs)[i] == base + Concat(cs[..i + 1])
    decreases |cs|
  {
    if |cs| > 0 {
      CumulativeIsPrefixConcat(base + cs[0], cs[1..]);
      forall i | 0 <= i < |cs|
        ensures Cumulative(base, cs)[i] == base + Concat(cs[..i + 1])
      {
        if i > 0 {
          assert cs[..i + 1] == [cs[0]] + cs[1..][..i];
          assert Concat(cs[..i + 1]) == cs[0] + Concat(cs[1..][..i]);
        } else {
          assert cs[..1] == [cs[0]];
          assert Concat(cs[..1]) == cs[0] + Concat([]);
        }
      }
    }
  }

  /** The fold over decoded chunks, from the empty `fullResponse`: the final
      `fullResponse` is the in-order concatenation of the texts of all
      string-convertible truthy contents (the `Delta` frames) before the
      first `"[DONE]"`; there is one dispatched payload per such content,
      the i-th being the concatenation of the first i+1 texts; and the early
      return fires exactly when some data line parses to `"[DONE]"`. */
  lemma StreamAccumulates(chunks: seq<string>, parse: Classifier)
    ensures var r := FoldChunks(Start, chunks, parse);
      var frames := ChunkFrames(chunks, parse);
      var cs := Contents(BeforeDone(frames));
      && r.full == Concat(cs)
      && |r.dispatched| == |cs|
      && (forall i :: 0 <= i < |cs| ==> r.dispatched[i] == Concat(cs[..i + 1]))
      && (r.stopped <==> DoneString in frames)
  {
    var frames := ChunkFrames(chunks, parse);
    var cs := Contents(BeforeDone(frames));
    FoldChunksIsFoldFrames(Start, chunks, parse);
    FoldFramesClosedForm(Start, frames);
    CumulativeIsPrefixConcat("", cs);
    assert forall s: string :: "" + s == s;
    assert [] + Cumulative("", cs) == Cumulative("", cs);
  }

  /** Concatenating more of the same list appends the pieces in between. */
  lemma ConcatOfPrefixes(cs: seq<string>, i: nat, j: nat)
    requires i <= j <= |cs|
    ensures Concat(cs[..j]) == Concat(cs[..i]) + Concat(cs[i..j])
  {
    assert cs[..j] == cs[..i] + cs[i..j];
    ConcatAppend(cs[..i], cs[i..j]);
  }

  /** The `j`-th running concatenation extends the `i`-th by the pieces in
      between, and equals it exactly when those pieces are all empty. */
  lemma PayloadsBetween(cs: seq<string>, i: nat, j: nat)
    requires i < j < |cs|
    ensures var p, q := Concat(cs[..i + 1]), Concat(cs[..j + 1]);
      && q == p + Concat(cs[i + 1..j + 1])
      && IsPrefix(p, q)
      && (p == q <==> forall k :: i < k <= j ==> cs[k] == "")
  {
    var mid := cs[i + 1..j + 1];
    var p := Concat(cs[..i + 1]);
    ConcatOfPrefixes(cs, i + 1, j + 1);
    assert (p + Concat(mid))[..|p|] == p;
    ConcatEmptyIff(mid);
    assert forall m :: 0 <= m < |mid| ==> mid[m] == cs[m + i + 1];
    assert forall k :: i < k <= j ==> cs[k] == mid[k - i - 1];
  }

  /** Each dispatched payload is a prefix of every later one and of the final
      `fullResponse`, and the last one is that response: the text shown never
      shrinks while one request streams. A later payload repeats an earlier
      one exactly when every content in between has an empty string form. */
  lemma DispatchedPrefixes(chunks: seq<string>, parse: Classifier)
    ensures var r := FoldChunks(Start, chunks, parse);
      var d := r.dispatched;
      var cs := Contents(BeforeDone(ChunkFrames(chunks, parse)));
      && |d| == |cs|
      && (forall i, j :: 0 <= i < j < |d| ==> IsPrefix(d[i], d[j]))
      && (forall i, j :: 0 <= i < j < |d| ==> d[j] == d[i] + Concat(cs[i + 1..j + 1]))
      && (forall i, j :: 0 <= i < j < |d| ==> (d[i] == d[j] <==> forall k :: i < k <= j ==> cs[k] == ""))
      && (forall i :: 0 <= i < |d| ==> IsPrefix(d[i], r.full))
      && (|d| > 0 ==> d[|d| - 1] == r.full)
  {
    var r := FoldChunks(Start, chunks, parse);
    var cs := Contents(BeforeDone(ChunkFrames(chunks, parse)));
    StreamAccumulates(chunks, parse);
    var d := r.dispatched;
    forall i, j | 0 <= i < j < |d|
      ensures d[j] == d[i] + Concat(cs[i + 1..j + 1])
      ensures IsPrefix(d[i], d[j])
      ensures d[i] == d[j] <==> forall k :: i < k <= j ==> cs[k] == ""
    {
      PayloadsBetween(cs, i, j);
    }
    forall i | 0 <= i < |d|
      ensures IsPrefix(d[i], r.full)
    {
      ConcatOfPrefixes(cs, i + 1, |cs|);
      assert cs[..|cs|] == cs;
      assert (d[i] + Concat(cs[i + 1..|cs|]))[..|d[i]|] == d[i];
    }
    assert cs[..|cs|] == cs;
  }

  /** A truthy content whose string form is empty (`[]`, `[null]`) still
      dispatches: the payload it sends repeats the current `fullResponse`. */
  lemma EmptyTextRepeatsPayload(fs: seq<Frame>)
    requires DoneString !in fs
    ensures var a := FoldFrames(Start, fs);
      FoldFrames(Start, fs + [Delta("")]) == a.(dispatched := a.dispatched + [a.full])
  {
    FoldFramesAppend(Start, fs, [Delta("")]);
    FoldFramesClosedForm(Start, fs);
    var a := FoldFrames(Start, fs);
    assert a.full + "" == a.full;
  }

  // ----- Skip-on-error and early stop -----

  /** A frame that leaves the fold alone: a parse failure, or a frame
      without truthy content. */
  predicate Inert(f: Frame)
  {
    f.ParseFail? || f.NoContent?
  }

  /** A malformed frame or one without truthy content anywhere in the stream is skipped
      without stopping: the result is as if it were not there. */
  lemma InertFrameSkipped(acc: Acc, a: seq<Frame>, f: Frame, b: seq<Frame>)
    requires Inert(f)
    ensures FoldFrames(acc, a + [f] + b) == FoldFrames(acc, a + b)
  {
    FoldFramesAppend(acc, a + [f], b);
    FoldFramesAppend(acc, a, [f]);
    FoldFramesAppend(acc, a, b);
  }

  /** Nothing after a `DoneString` frame has any effect. */
  lemma NothingAfterDone(acc: Acc, a: seq<Frame>, b: seq<Frame>)
    ensures FoldFrames(acc, a + [DoneString] + b) == FoldFrames(acc, a + [DoneString])
    ensures FoldFrames(acc, a + [DoneString]).stopped
  {
    FoldFramesAppend(acc, a + [DoneString], b);
    FoldFramesAppend(acc, a, [DoneString]);
  }

  lemma {:induction false} ChunkFramesAppend(a: seq<string>, b: seq<string>, parse: Classifier)
    ensures ChunkFrames(a + b, parse) == ChunkFrames(a, parse) + ChunkFrames(b, parse)
    decreases |a|
  {
    if |a| == 0 {
      assert a + b == b;
    } else {
      assert (a + b)[1..] == a[1..] + b;
      ChunkFramesAppend(a[1..], b, parse);
    }
  }

  /** Once a data line has parsed to `"[DONE]"`, no later chunk changes the
      response or the dispatched payloads. */
  lemma NothingAfterDoneChunk(chunks: seq<string>, more: seq<string>, parse: Classifier)
    requires DoneString in ChunkFrames(chunks, parse)
    ensures FoldChunks(Start, chunks + more, parse) == FoldChunks(Start, chunks, parse)
  {
    var fs := ChunkFrames(chunks, parse);
    ChunkFramesAppend(chunks, more, parse);
    FoldChunksIsFoldFrames(Start, chunks + more, parse);
    FoldChunksIsFoldFrames(Start, chunks, parse);
    FoldFramesAppend(Start, fs, ChunkFrames(more, parse));
    FoldFramesClosedForm(Start, fs);
  }

  // ----- Line framing -----

  /** A data line cut by a chunk boundary inside its `data: ` prefix yields no
      frame at all, while the same line in one chunk yields its payload's. */
  lemma ChunkBoundaryLosesLine(payload: string, k: nat, parse: Classifier)
    requires Newline !in payload
    requires 0 < k < |DataPrefix|
    ensures var line := DataPrefix + payload;
      && ChunkFrames([line[..k], line[k..]], parse) == []
      && ChunkFrames([line], parse) == [parse(payload)]
  {
    var line := DataPrefix + payload;
    assert Newline !in line[..k] && Newline !in line[k..] && Newline !in line by {
      assert forall i :: 0 <= i < |DataPrefix| ==> DataPrefix[i] != Newline;
      assert forall i :: 0 <= i < |line| ==> line[i] != Newline by {
        forall i | 0 <= i < |line| ensures line[i] != Newline {
          if i >= |DataPrefix| { assert line[i] == payload[i - |DataPrefix|]; }
        }
      }
    }
    var head, tail := line[..k], line[k..];
    SplitWithoutSeparator(head, Newline);
    SplitWithoutSeparator(tail, Newline);
    SplitWithoutSeparator(line, Newline);
    assert tail[0] == DataPrefix[k] != 'd';
    assert !StartsWith(tail, DataPrefix);
    assert !StartsWith(head, DataPrefix);
    assert StartsWith(line, DataPrefix);
    assert line[|DataPrefix|..] == payload;
    assert LineFrames([head], parse) == [] + LineFrames([], parse);
    assert LineFrames([tail], parse) == [] + LineFrames([], parse);
    assert LineFrames([line], parse) == [parse(payload)] + LineFrames([], parse);
    assert ChunkFrames([tail], parse) == LineFrames([tail], parse) + ChunkFrames([], parse);
    assert [head, tail][1..] == [tail];
    assert ChunkFrames([head, tail], parse) == LineFrames([head], parse) + ChunkFrames([tail], parse);
    assert ChunkFrames([line], parse) == LineFrames([line], parse) + ChunkFrames([], parse);
  }

  /** What the source relies on from `JSON.parse`: the quoted sentinel is the
      JSON string `"[DONE]"`, and the bare `[DONE]` is not valid JSON. */
  predicate SentinelAware(parse: Classifier)
  {
    parse(QuotedDone) == DoneString && parse(BareDone) == ParseFail
  }

  const QuotedDone: string := "\"[DONE]\""
  const BareDone: string := "[DONE]"

  /** A one-line chunk holding the data line for `payload`, when `payload`
      is one of the two sentinels. */
  lemma SentinelChunk(payload: string, parse: Classifier)
    requires payload == QuotedDone || payload == BareDone
    ensures Split(DataPrefix + payload, Newline) == [DataPrefix + payload]
    ensures FoldLines(Start, [DataPrefix + payload], parse) == StepFrame(Start, parse(payload))
  {
    var line := DataPrefix + payload;
    assert forall i :: 0 <= i < |line| ==> line[i] != Newline;
    SplitWithoutSeparator(line, Newline);
    assert StartsWith(line, DataPrefix);
    assert line[|DataPrefix|..] == payload;
  }

  /** Only the quoted sentinel stops the stream; a bare `data: [DONE]` line
      is a parse failure that is skipped, and reading goes on. */
  lemma OnlyQuotedSentinelStops(parse: Classifier, more: seq<string>)
    requires SentinelAware(parse)
    ensures FoldChunks(Start, [DataPrefix + QuotedDone] + more, parse).stopped
    ensures FoldChunks(Start, [DataPrefix + BareDone] + more, parse) == FoldChunks(Start, more, parse)
  {
    var quoted := DataPrefix + QuotedDone;
    var bare := DataPrefix + BareDone;
    SentinelChunk(QuotedDone, parse);
    SentinelChunk(BareDone, parse);
    var stopped := Start.(stopped := true);
    assert FoldChunks(Start, [quoted] + more, parse) == FoldChunks(stopped, more, parse) by {
      assert ([quoted] + more)[1..] == more;
    }
    assert FoldChunks(Start, [bare] + more, parse) == FoldChunks(Start, more, parse) by {
      assert ([bare] + more)[1..] == more;
    }
  }

  /** Deltas "4", " is", " the", " answer" followed by the sentinel leave
      "4 is the answer" and dispatch each intermediate text. */
  lemma AnswerScenario()
    ensures var r := FoldFrames(Start, [Delta("4"), Delta(" is"), Delta(" the"), Delta(" answer"), DoneString]);
      && r.full == "4 is the answer"
      && r.dispatched == ["4", "4 is", "4 is the", "4 is the answer"]
      && r.stopped
  {
    var fs := [Delta("4"), Delta(" is"), Delta(" the"), Delta(" answer"), DoneString];
    var a1 := Acc("4", ["4"], false);
    var a2 := Acc("4 is", ["4", "4 is"], false);
    var a3 := Acc("4 is the", ["4", "4 is", "4 is the"], false);
    var a4 := Acc("4 is the answer", ["4", "4 is", "4 is the", "4 is the answer"], false);
    var a5 := a4.(stopped := true);
    assert "" + "4" == "4" && "4" + " is" == "4 is";
    assert "4 is" + " the" == "4 is the" && "4 is the" + " answer" == "4 is the answer";
    assert StepFrame(Start, fs[0]) == a1 && StepFrame(a1, fs[1]) == a2;
    assert StepFrame(a2, fs[2]) == a3 && StepFrame(a3, fs[3]) == a4;
    assert fs[1..][1..] == fs[2..] && fs[2..][1..] == fs[3..] && fs[3..][1..] == fs[4..];
    assert FoldFrames(a4, fs[4..]) == a5;
    assert FoldFrames(a3, fs[3..]) == a5;
    assert FoldFrames(a2, fs[2..]) == a5;
    assert FoldFrames(a1, fs[1..]) == a5;
  }
}
