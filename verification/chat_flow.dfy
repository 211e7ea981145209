/** One press of the send button: `handleSend` dispatches `addMessage` with
    the user's message and then the `fetchAIResponse` thunk, whose lifecycle
    actions and streamed updates drive the chat slice. */
module ChatFlow {

  import opened Wrappers
  import opened Text
  import C = ChatStore
  import S = StreamFold

  /** The actions the thunk dispatches, in order: `pending`, one
      `updateLastMessage` per streamed payload, then `fulfilled` or
      `rejected` with the message of the thrown error. */
  function ThunkActions(run: S.Run, now: int, errorMessage: string): seq<C.Action>
  {
    [C.Pending(now)]
    + C.Updates(run.dispatched)
    + [Settle(run, errorMessage)]
  }

  /** `handleSend` past its guard against blank input: the user's message,
      numbered one past the current count, then the thunk. `now` is the
      clock reading taken by the `pending` reducer. Whatever the request
      does, the list grows by the user's message and an AI placeholder and
      the earlier messages stay as they were. */
  function Send(s: C.State, input: string, now: int, config: S.Config, response: S.Response,
                parse: S.Classifier, errorMessage: string): (r: C.State)
    ensures |r.messages| == |s.messages| + 2
    ensures r.messages[..|s.messages|] == s.messages
    ensures r.messages[|s.messages|] == C.Message(|s.messages| + 1, input, C.User, false)
    ensures r.messages[|s.messages| + 1].id == now && r.messages[|s.messages| + 1].sender == C.Ai
  {
    Dispatch(s, input, now, S.FetchAIResponse(config, response, parse), errorMessage)
  }

  /** The actions of one send, for a given run of the thunk. */
  function Dispatch(s: C.State, input: string, now: int, run: S.Run, errorMessage: string): (r: C.State)
    ensures |r.messages| == |s.messages| + 2
    ensures r.messages[..|s.messages|] == s.messages
    ensures r.messages[|s.messages|] == C.Message(|s.messages| + 1, input, C.User, false)
    ensures r.messages[|s.messages| + 1].id == now && r.messages[|s.messages| + 1].sender == C.Ai
  {
    var user := C.Message(|s.messages| + 1, input, C.User, false);
    ActionSteps(s, user, now, run, errorMessage);
    PlaceholderKept(s, user, now, run, errorMessage);
    C.ReduceAll(s, [C.AddMessage(user)] + ThunkActions(run, now, errorMessage))
  }

  /** The state after the user's message and the placeholder, and after the
      last streamed payload (if any), of one send. */
  function AfterPending(s: C.State, user: C.Message, now: int): C.State
  {
    C.OnPending(C.OnAddMessage(s, user), now)
  }

  function AfterUpdates(s: C.State, user: C.Message, now: int, run: S.Run): C.State
  {
    var s2 := AfterPending(s, user, now);
    if |run.dispatched| == 0 then s2 else C.OnUpdateLastMessage(s2, run.dispatched[|run.dispatched| - 1])
  }

  /** The action sequence of one send, step by step. */
  lemma ActionSteps(s: C.State, user: C.Message, now: int, run: S.Run, errorMessage: string)
    ensures C.ReduceAll(s, [C.AddMessage(user)] + ThunkActions(run, now, errorMessage))
         == C.Reduce(AfterUpdates(s, user, now, run), Settle(run, errorMessage))
  {
    var last := Settle(run, errorMessage);
    var pre := [C.AddMessage(user), C.Pending(now)];
    var ups := C.Updates(run.dispatched);
    var s2 := C.ReduceAll(s, pre);
    ReduceTwo(s, C.AddMessage(user), C.Pending(now));
    ThunkActionsSplit(user, run, now, errorMessage);
    C.ReduceAllAppend(s, pre, ups);
    C.UpdatesLeaveLastPayload(s2, run.dispatched);
    var s3 := C.ReduceAll(s2, ups);
    ReduceOne(s3, last);
    C.ReduceAllAppend(s, pre + ups, [last]);
  }

  /** The earlier messages, the user's message and the placeholder's id and
      sender survive the updates and the settling action. */
  lemma PlaceholderKept(s: C.State, user: C.Message, now: int, run: S.Run, errorMessage: string)
    ensures var r := C.Reduce(AfterUpdates(s, user, now, run), Settle(run, errorMessage));
      var n := |s.messages|;
      && |r.messages| == n + 2
      && r.messages[..n] == s.messages
      && r.messages[n] == user
      && r.messages[n + 1].id == now && r.messages[n + 1].sender == C.Ai
  {
    var n := |s.messages|;
    var s2 := AfterPending(s, user, now);
    assert s2.messages[..n] == s.messages by {
      assert s2.messages[..n] == s2.messages[..n + 1][..n];
    }
    var s3 := AfterUpdates(s, user, now, run);
    assert s3.messages[..n + 1] == s2.messages[..n + 1];
    assert s3.messages[..n] == s3.messages[..n + 1][..n];
  }

  lemma ReduceTwo(s: C.State, a: C.Action, b: C.Action)
    ensures C.ReduceAll(s, [a, b]) == C.Reduce(C.Reduce(s, a), b)
  {
    assert [a, b][1..] == [b];
    ReduceOne(C.Reduce(s, a), b);
  }

  lemma ReduceOne(s: C.State, a: C.Action)
    ensures C.ReduceAll(s, [a]) == C.Reduce(s, a)
  {
  }

  /** The settling action of a run. */
  function Settle(run: S.Run, errorMessage: string): C.Action
  {
    if run.outcome.Fulfilled? then C.Fulfilled else C.Rejected(errorMessage)
  }

  lemma ThunkActionsSplit(user: C.Message, run: S.Run, now: int, errorMessage: string)
    ensures [C.AddMessage(user)] + ThunkActions(run, now, errorMessage)
         == [C.AddMessage(user), C.Pending(now)] + C.Updates(run.dispatched) + [Settle(run, errorMessage)]
  {
  }

  /** The state after the whole action sequence of one send, step by step:
      the user's message, the placeholder, the last streamed payload (if
      any), then the settling action. */
  lemma SendSteps(s: C.State, input: string, now: int, run: S.Run, errorMessage: string)
    ensures var s2 := C.OnPending(C.OnAddMessage(s, C.Message(|s.messages| + 1, input, C.User, false)), now);
      var s3 := if |run.dispatched| == 0 then s2
                else C.OnUpdateLastMessage(s2, run.dispatched[|run.dispatched| - 1]);
      Dispatch(s, input, now, run, errorMessage) == C.Reduce(s3, Settle(run, errorMessage))
  {
    ActionSteps(s, C.Message(|s.messages| + 1, input, C.User, false), now, run, errorMessage);
  }

  /** A send appends exactly two messages, the user's and the AI placeholder,
      and leaves earlier ones alone. The placeholder ends up holding the last
      streamed payload (or nothing); a fulfilled request marks it finished
      and the status succeeded, a rejected one leaves it streaming and
      records the error. */
  lemma SendAppendsTwo(s: C.State, input: string, now: int, config: S.Config, response: S.Response,
                       parse: S.Classifier, errorMessage: string)
    ensures |Send(s, input, now, config, response, parse, errorMessage).messages| == |s.messages| + 2
    ensures var r := Send(s, input, now, config, response, parse, errorMessage);
      var run := S.FetchAIResponse(config, response, parse);
      var n := |s.messages|;
      var p := r.messages[n + 1];
      && r.messages[..n] == s.messages
      && r.messages[n] == C.Message(n + 1, input, C.User, false)
      && p.id == now && p.sender == C.Ai
      && p.text == (if |run.dispatched| == 0 then "" else run.dispatched[|run.dispatched| - 1])
      && (run.outcome.Fulfilled? ==> r.status == C.Succeeded && r.error == s.error && !p.streaming)
      && (run.outcome.Rejected? ==> r.status == C.Failed && r.error == Some(errorMessage) && p.streaming)
  {
    SendSteps(s, input, now, S.FetchAIResponse(config, response, parse), errorMessage);
    var n := |s.messages|;
    var s1 := C.OnAddMessage(s, C.Message(n + 1, input, C.User, false));
    var s2 := C.OnPending(s1, now);
    assert s2.messages[..n] == s.messages by {
      assert s2.messages[..n] == s2.messages[..n + 1][..n];
    }
  }

  /** A send whose configuration is present and whose reply is `ok` leaves in
      the placeholder the concatenation of the texts of every string-convertible
      truthy content (every `Delta` frame) before the sentinel. The request
      succeeds exactly when the sentinel arrived or the body ended cleanly; only then is the placeholder no longer streaming. */
  lemma SendShowsStreamedText(s: C.State, input: string, now: int, config: S.Config,
                              body: seq<string>, bodyFails: bool,
                              parse: S.Classifier, errorMessage: string)
    requires S.Present(config.apiKey) && S.Present(config.apiEndpoint)
    ensures |Send(s, input, now, config, S.Reply(true, body, bodyFails), parse, errorMessage).messages|
            == |s.messages| + 2
    ensures var r := Send(s, input, now, config, S.Reply(true, body, bodyFails), parse, errorMessage);
      var frames := S.ChunkFrames(body, parse);
      var p := r.messages[|s.messages| + 1];
      && p.text == Concat(S.Contents(S.BeforeDone(frames)))
      && (r.status == C.Succeeded <==> S.DoneString in frames || !bodyFails)
      && (p.streaming <==> r.status == C.Failed)
  {
    var response := S.Reply(true, body, bodyFails);
    var run := S.FetchAIResponse(config, response, parse);
    var cs := S.Contents(S.BeforeDone(S.ChunkFrames(body, parse)));
    SendAppendsTwo(s, input, now, config, response, parse, errorMessage);
    if |cs| > 0 {
      assert cs[..|cs|] == cs;
    }
  }

  /** A send without an API key or endpoint (or whose request fails before
      any data) fails at once: the placeholder stays empty and streaming. */
  lemma SendRejectedUpFront(s: C.State, input: string, now: int, config: S.Config,
                            response: S.Response, parse: S.Classifier, errorMessage: string)
    requires !S.Present(config.apiKey) || !S.Present(config.apiEndpoint)
             || response.Unreachable? || !response.ok
    ensures |Send(s, input, now, config, response, parse, errorMessage).messages| == |s.messages| + 2
    ensures var r := Send(s, input, now, config, response, parse, errorMessage);
      var p := r.messages[|s.messages| + 1];
      && r.status == C.Failed && r.error == Some(errorMessage)
      && p.text == "" && p.streaming
  {
    SendAppendsTwo(s, input, now, config, response, parse, errorMessage);
  }

  /** A rejected send leaves its placeholder streaming for good: whatever a
      later send does, that placeholder is still flagged streaming after it,
      and when the later send is rejected too, two messages stream at once.
      So two messages can carry the streaming flag at once. */
  lemma StreamingSurvivesRejection(s: C.State, parse: S.Classifier,
                                   input1: string, now1: int, config1: S.Config, response1: S.Response, e1: string,
                                   input2: string, now2: int, config2: S.Config, response2: S.Response, e2: string)
    requires S.FetchAIResponse(config1, response1, parse).outcome.Rejected?
    ensures |Send(Send(s, input1, now1, config1, response1, parse, e1),
                  input2, now2, config2, response2, parse, e2).messages| == |s.messages| + 4
    ensures var r := Send(Send(s, input1, now1, config1, response1, parse, e1),
                          input2, now2, config2, response2, parse, e2);
      var later := S.FetchAIResponse(config2, response2, parse).outcome;
      var n := |s.messages|;
      && r.messages[n + 1].streaming
      && (later.Rejected? ==> r.messages[n + 3].streaming && r.status == C.Failed)
      && (later.Fulfilled? ==> !r.messages[n + 3].streaming && r.status == C.Succeeded)
  {
    var n := |s.messages|;
    var r1 := Send(s, input1, now1, config1, response1, parse, e1);
    var r := Send(r1, input2, now2, config2, response2, parse, e2);
    SendAppendsTwo(s, input1, now1, config1, response1, parse, e1);
    SendAppendsTwo(r1, input2, now2, config2, response2, parse, e2);
    assert r.messages[n + 1] == r.messages[..n + 2][n + 1];
  }
}
