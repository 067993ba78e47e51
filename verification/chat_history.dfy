/** The sliding window of past conversation turns that the query refiner sees. */
module ChatHistory {
  import opened Records
  import opened SessionState

  /** `slide_window`: the window reaches back this many messages, counting the one
      just appended. */
  const SlideWindow: nat := 7

  /** `max(0, n - slide_window)`. */
  function WindowStart(n: int): int {
    if n - SlideWindow > 0 then n - SlideWindow else 0
  }

  /** The messages at positions `max(0, n - 7)` up to, excluding, `n - 1`: the last
      (in-flight) message is always left out, so at most six turns remain. */
  function Window(log: seq<Message>): (h: seq<Message>)
    ensures |h| <= SlideWindow - 1
    ensures |log| < 2 ==> |h| == 0
    ensures |log| >= 2 ==> |h| == if |log| - 1 < SlideWindow - 1 then |log| - 1 else SlideWindow - 1
    ensures forall i :: 0 <= i < |h| ==> h[i] == log[|log| - 1 - |h| + i]
  {
    if |log| < 2 then [] else log[WindowStart(|log|)..|log| - 1]
  }

  /** The window is empty exactly when fewer than two messages are logged. */
  lemma WindowEmptyIff(log: seq<Message>)
    ensures Window(log) == [] <==> |log| < 2
  {
  }

  /** The window taken right after a message is appended holds the last (up to
      six) messages that were logged before it. */
  lemma WindowAfterAppend(prior: seq<Message>, m: Message)
    ensures Window(prior + [m]) == prior[|prior| - |Window(prior + [m])|..]
    ensures |Window(prior + [m])| == if |prior| < SlideWindow - 1 then |prior| else SlideWindow - 1
  {
  }

  /** `get_chat_history`: copies the window of the current pet's log one message at
      a time, as the `range(start_index, len - 1)` loop does. */
  method GetChatHistory(s: Session) returns (history: seq<Message>)
    requires s.currentPet.Some? && s.currentPet.value in s.messages
    ensures history == Window(s.messages[s.currentPet.value])
    ensures |history| <= SlideWindow - 1
    ensures history == [] <==> |s.messages[s.currentPet.value]| < 2
  {
    var log := s.messages[s.currentPet.value];
    history := [];
    var start := WindowStart(|log|);
    var i := start;
    while i < |log| - 1
      invariant start <= i
      invariant i <= |log| - 1 || i == start
      invariant history == log[start..i]
      decreases |log| - i
    {
      history := history + [log[i]];
      i := i + 1;
    }
    WindowEmptyIff(log);
  }
}
