/** The `chat` slice of the Redux store: an ordered message list, the status
    of the AI request and the last error, changed only by six reducers.
    Every reducer is a pure function from state to state. */
module ChatStore {

  import opened Wrappers

  datatype Sender = User | Ai

  /** A chat message. `streaming` is true while the key is present on the
      JavaScript object and false once it has been deleted (or was never set). */
  datatype Message = Message(id: int, text: string, sender: Sender, streaming: bool)

  datatype Status = Idle | Loading | Succeeded | Failed

  datatype State = State(messages: seq<Message>, status: Status, error: Option<string>)

  /** The greeting every conversation starts with, and returns to on clear. */
  const Greeting: Message := Message(1, "你好！我是AI助手，有什么可以帮你的吗？", Ai, false)

  const InitialState: State := State([Greeting], Idle, None)

  /** The actions the slice reacts to: its three own reducers and the three
      lifecycle actions of the `fetchAIResponse` thunk. `Pending` carries the
      clock reading the reducer uses as the placeholder's id. */
  datatype Action =
    | AddMessage(message: Message)
    | UpdateLastMessage(text: string)
    | ClearMessages
    | Pending(now: int)
    | Fulfilled
    | Rejected(errorMessage: string)

  /** `addMessage`: the payload becomes the new last message. */
  function OnAddMessage(s: State, m: Message): (r: State)
    ensures |r.messages| == |s.messages| + 1
    ensures r.messages[..|s.messages|] == s.messages
    ensures r.messages[|s.messages|] == m
    ensures r.status == s.status && r.error == s.error
  {
    s.(messages := s.messages + [m])
  }

  /** `updateLastMessage`: overwrite the text of the last message, if any. */
  function OnUpdateLastMessage(s: State, text: string): (r: State)
    ensures |r.messages| == |s.messages|
    ensures r.status == s.status && r.error == s.error
    ensures |s.messages| == 0 ==> r == s
    ensures |s.messages| > 0 ==>
      var n := |s.messages| - 1;
      && r.messages[..n] == s.messages[..n]
      && r.messages[n].text == text
      && r.messages[n].id == s.messages[n].id
      && r.messages[n].sender == s.messages[n].sender
      && r.messages[n].streaming == s.messages[n].streaming
  {
    if |s.messages| == 0 then s
    else
      var n := |s.messages| - 1;
      s.(messages := s.messages[n := s.messages[n].(text := text)])
  }

  /** `clearMessages`: back to the greeting alone; status and error stay. */
  function OnClearMessages(s: State): (r: State)
    ensures |r.messages| == 1
    ensures r.messages[0].id == 1 && r.messages[0].sender == Ai && !r.messages[0].streaming
    ensures r.messages == InitialState.messages
    ensures r.status == s.status && r.error == s.error
  {
    s.(messages := InitialState.messages)
  }

  /** The `pending` case: status becomes loading and an empty, streaming AI
      placeholder stamped with `now` is appended. */
  function OnPending(s: State, now: int): (r: State)
    ensures r.status == Loading && r.error == s.error
    ensures |r.messages| == |s.messages| + 1
    ensures r.messages[..|s.messages|] == s.messages
    ensures var p := r.messages[|s.messages|];
      p.id == now && p.text == "" && p.sender == Ai && p.streaming
  {
    State(s.messages + [Message(now, "", Ai, true)], Loading, s.error)
  }

  /** The `fulfilled` case: status becomes succeeded and the last message, if
      any, loses its streaming flag and nothing else. */
  function OnFulfilled(s: State): (r: State)
    ensures r.status == Succeeded && r.error == s.error
    ensures |r.messages| == |s.messages|
    ensures |s.messages| > 0 ==>
      var n := |s.messages| - 1;
      && r.messages[..n] == s.messages[..n]
      && !r.messages[n].streaming
      && r.messages[n].text == s.messages[n].text
      && r.messages[n].id == s.messages[n].id
      && r.messages[n].sender == s.messages[n].sender
  {
    if |s.messages| == 0 then s.(status := Succeeded)
    else
      var n := |s.messages| - 1;
      s.(status := Succeeded, messages := s.messages[n := s.messages[n].(streaming := false)])
  }

  /** The `rejected` case: status becomes failed and the error is recorded;
      the messages, including a streaming placeholder, stay as they are. */
  function OnRejected(s: State, errorMessage: string): (r: State)
    ensures r.status == Failed && r.error == Some(errorMessage)
    ensures r.messages == s.messages
  {
    s.(status := Failed, error := Some(errorMessage))
  }

  /** The slice reducer: dispatch an action to its case. */
  function Reduce(s: State, a: Action): State
  {
    match a
    case AddMessage(m) => OnAddMessage(s, m)
    case UpdateLastMessage(t) => OnUpdateLastMessage(s, t)
    case ClearMessages => OnClearMessages(s)
    case Pending(now) => OnPending(s, now)
    case Fulfilled => OnFulfilled(s)
    case Rejected(e) => OnRejected(s, e)
  }

  /** The state after dispatching `actions` in order. */
  function ReduceAll(s: State, actions: seq<Action>): State
    decreases |actions|
  {
    if |actions| == 0 then s else ReduceAll(Reduce(s, actions[0]), actions[1..])
  }

  lemma {:induction false} ReduceAllAppend(s: State, a: seq<Action>, b: seq<Action>)
    ensures ReduceAll(s, a + b) == ReduceAll(ReduceAll(s, a), b)
    decreases |a|
  {
    if |a| == 0 {
      assert a + b == b;
    } else {
      assert (a + b)[1..] == a[1..] + b;
      ReduceAllAppend(Reduce(s, a[0]), a[1..], b);
    }
  }

  /** `r` keeps every message of `s` in its place, with the same id and
      sender: the list has only grown at the end (texts and the streaming
      flag may have changed). */
  ghost predicate Extends(s: State, r: State)
  {
    && |s.messages| <= |r.messages|
    && forall i :: 0 <= i < |s.messages| ==>
         r.messages[i].id == s.messages[i].id && r.messages[i].sender == s.messages[i].sender
  }

  ghost predicate NoClear(actions: seq<Action>)
  {
    forall i :: 0 <= i < |actions| ==> !actions[i].ClearMessages?
  }

  /** Messages are never reordered or removed except by `clearMessages`:
      any run of other actions only appends. */
  lemma {:induction false} AppendOnlyWithoutClear(s: State, actions: seq<Action>)
    requires NoClear(actions)
    ensures Extends(s, ReduceAll(s, actions))
    decreases |actions|
  {
    if |actions| > 0 {
      var s1 := Reduce(s, actions[0]);
      assert Extends(s, s1);
      assert NoClear(actions[1..]) by {
        forall i | 0 <= i < |actions[1..]| ensures !actions[1..][i].ClearMessages? {
          assert actions[1..][i] == actions[i + 1];
        }
      }
      AppendOnlyWithoutClear(s1, actions[1..]);
    }
  }

  /** Starting from a state with at least one message, no sequence of actions
      ever empties the list; so from the initial state the "no last message"
      branches of `updateLastMessage` and `fulfilled` are never taken. */
  lemma {:induction false} NeverEmpty(s: State, actions: seq<Action>)
    requires |s.messages| >= 1
    ensures |ReduceAll(s, actions).messages| >= 1
    decreases |actions|
  {
    if |actions| > 0 {
      NeverEmpty(Reduce(s, actions[0]), actions[1..]);
    }
  }

  /** Clearing forgets every message sent before: two states that differ in
      their messages agree after `clearMessages`, and clearing twice is
      clearing once. */
  lemma ClearForgetsHistory(s: State, t: State)
    requires s.status == t.status && s.error == t.error
    ensures OnClearMessages(s) == OnClearMessages(t)
    ensures OnClearMessages(OnClearMessages(s)) == OnClearMessages(s)
  {
  }

  /** The last `updateLastMessage` wins. */
  lemma UpdateLastWins(s: State, a: string, b: string)
    ensures OnUpdateLastMessage(OnUpdateLastMessage(s, a), b) == OnUpdateLastMessage(s, b)
  {
  }

  /** The texts of the updates in `texts`, as actions. */
  function Updates(texts: seq<string>): (actions: seq<Action>)
    ensures |actions| == |texts|
    ensures forall i :: 0 <= i < |texts| ==> actions[i] == UpdateLastMessage(texts[i])
  {
    if |texts| == 0 then [] else [UpdateLastMessage(texts[0])] + Updates(texts[1..])
  }

  /** A run of `updateLastMessage` actions amounts to the last of them
      alone (or to nothing when the run is empty). */
  lemma {:induction false} UpdatesLeaveLastPayload(s: State, texts: seq<string>)
    ensures ReduceAll(s, Updates(texts))
         == if |texts| == 0 then s else OnUpdateLastMessage(s, texts[|texts| - 1])
    decreases |texts|
  {
    if |texts| > 0 {
      var s1 := OnUpdateLastMessage(s, texts[0]);
      assert Updates(texts)[1..] == Updates(texts[1..]);
      UpdatesLeaveLastPayload(s1, texts[1..]);
      if |texts| > 1 {
        UpdateLastWins(s, texts[0], texts[|texts| - 1]);
      }
    }
  }
}
