/**
 The history that a completion request carries, pruneCompletionHistory of core/conversation/service.go.
 */
module History {
  import opened Text
  import opened Conversation

  datatype ChatMessage = ChatMessage(role: Role, content: string)

  predicate Sendable(m: Message) { Trim(m.content) != "" && (m.role == User || m.role == Assistant) }

  // The sendable messages with their text trimmed, in order.
  function Compact(history: seq<Message>, n: nat): seq<ChatMessage>
    requires n <= |history|
  {
    if n == 0 then []
    else
      var m := history[n - 1];
      Compact(history, n - 1) + (if Sendable(m) then [ChatMessage(m.role, Trim(m.content))] else [])
  }

  // A message of the user or the assistant that is not blank, and what is sent of it.
  predicate Wanted(m: Message) { !Blank(m.content) && (m.role == User || m.role == Assistant) }

  ghost predicate SentAs(m: Message, c: ChatMessage) { c.role == m.role && Cuts(m.content, c.content) }

  // Message k of the compacted history is what is sent of the one at position pos[k]; the positions
  // increase and are exactly those of the wanted messages.
  ghost predicate TakenFrom(history: seq<Message>, n: nat, compact: seq<ChatMessage>, pos: seq<nat>)
    requires n <= |history|
  {
    && |pos| == |compact|
    && (forall k, l :: 0 <= k < l < |pos| ==> pos[k] < pos[l])
    && (forall k :: 0 <= k < |pos| ==> TakenAt(history, n, compact[k], pos[k]))
    && (forall i: nat :: i < n ==> Covered(history[i], pos, i))
  }

  ghost predicate TakenAt(history: seq<Message>, n: nat, c: ChatMessage, i: nat)
    requires n <= |history|
  {
    i < n && Wanted(history[i]) && SentAs(history[i], c)
  }

  predicate Covered(m: Message, pos: seq<nat>, i: nat) { Wanted(m) ==> i in pos }

  lemma TakeOne(history: seq<Message>, n: nat, compact: seq<ChatMessage>, pos: seq<nat>, c: ChatMessage)
    requires n < |history| && TakenFrom(history, n, compact, pos) && Wanted(history[n]) && SentAs(history[n], c)
    ensures TakenFrom(history, n + 1, compact + [c], pos + [n])
  {
    forall i: nat | i < n + 1 ensures Covered(history[i], pos + [n], i) {
      assert i < n ==> Covered(history[i], pos, i);
    }
    forall k | 0 <= k < |pos| + 1 ensures TakenAt(history, n + 1, (compact + [c])[k], (pos + [n])[k]) {
      assert k < |pos| ==> TakenAt(history, n, compact[k], pos[k]);
    }
  }

  lemma SkipOne(history: seq<Message>, n: nat, compact: seq<ChatMessage>, pos: seq<nat>)
    requires n < |history| && TakenFrom(history, n, compact, pos) && !Wanted(history[n])
    ensures TakenFrom(history, n + 1, compact, pos)
  {
    forall k | 0 <= k < |pos| ensures TakenAt(history, n + 1, compact[k], pos[k]) {
      assert TakenAt(history, n, compact[k], pos[k]);
    }
  }

  lemma CompactStep(history: seq<Message>, n: nat) returns (c: ChatMessage)
    requires n < |history|
    ensures Wanted(history[n]) ==> SentAs(history[n], c) && Compact(history, n + 1) == Compact(history, n) + [c]
    ensures !Wanted(history[n]) ==> Compact(history, n + 1) == Compact(history, n)
  {
    var m := history[n];
    c := ChatMessage(m.role, Trim(m.content));
    TrimBlank(m.content);
    TrimCuts(m.content, Trim(m.content));
  }

  // Compacting keeps exactly the wanted messages, in their order, without the white space around them.
  lemma {:induction false} CompactTakes(history: seq<Message>, n: nat) returns (pos: seq<nat>)
    requires n <= |history|
    ensures TakenFrom(history, n, Compact(history, n), pos)
  {
    if n == 0 {
      pos := [];
    } else {
      var before := CompactTakes(history, n - 1);
      var c := CompactStep(history, n - 1);
      if Wanted(history[n - 1]) {
        TakeOne(history, n - 1, Compact(history, n - 1), before, c);
        pos := before + [n - 1];
      } else {
        SkipOne(history, n - 1, Compact(history, n - 1), before);
        pos := before;
      }
    }
  }

  // The number of characters from the i-th message on.
  function Chars(ms: seq<ChatMessage>, i: nat): nat
    requires i <= |ms|
    decreases |ms| - i
  {
    if i == |ms| then 0 else |ms[i].content| + Chars(ms, i + 1)
  }

  // The messages from the i-th on are within both limits.
  predicate Fits(ms: seq<ChatMessage>, i: nat, maxMessages: int, maxChars: int)
    requires i <= |ms|
  {
    && (maxMessages >= 1 ==> |ms| - i <= maxMessages)
    && (maxChars > 0 ==> Chars(ms, i) <= maxChars)
  }

  // The last message is sent whatever its length.
  predicate Allowed(ms: seq<ChatMessage>, i: nat, maxMessages: int, maxChars: int)
    requires i <= |ms|
  {
    i + 1 == |ms| || Fits(ms, i, maxMessages, maxChars)
  }

  // The last n messages are the longest allowed suffix, and not empty unless there are no messages.
  ghost predicate LongestAllowed(ms: seq<ChatMessage>, n: nat, maxMessages: int, maxChars: int)
    requires n <= |ms|
  {
    && (ms != [] ==> n > 0 && Allowed(ms, |ms| - n, maxMessages, maxChars))
    && forall i :: 0 <= i < |ms| - n ==> !Allowed(ms, i, maxMessages, maxChars)
  }

  lemma {:induction false} CharsMonotone(ms: seq<ChatMessage>, i: nat, j: nat)
    requires i <= j <= |ms|
    ensures Chars(ms, j) <= Chars(ms, i)
    decreases j - i
  {
    if i < j {
      CharsMonotone(ms, i + 1, j);
    }
  }

  method CompactHistory(history: seq<Message>) returns (compact: seq<ChatMessage>)
    ensures compact == Compact(history, |history|)
  {
    compact := [];
    for k := 0 to |history|
      invariant compact == Compact(history, k)
    {
      var content := Trim(history[k].content);
      if content == "" {
        continue;
      }
      if history[k].role == User || history[k].role == Assistant {
        compact := compact + [ChatMessage(history[k].role, content)];
      }
    }
  }

  // The result is the longest allowed suffix of the sendable messages.
  method PruneCompletionHistory(history: seq<Message>, maxMessages: int, maxChars: int)
    returns (tail: seq<ChatMessage>)
    ensures |tail| <= |Compact(history, |history|)|
    ensures tail == Compact(history, |history|)[|Compact(history, |history|)| - |tail|..]
    ensures LongestAllowed(Compact(history, |history|), |tail|, maxMessages, maxChars)
  {
    var compact := CompactHistory(history);
    if |compact| == 0 {
      return [];
    }
    var limit := if maxMessages < 1 then |compact| else maxMessages;
    var reversed: seq<ChatMessage> := [];
    var total := 0;
    var index := |compact|;
    while index > 0
      invariant 0 <= index <= |compact| && |reversed| == |compact| - index
      invariant forall k :: 0 <= k < |reversed| ==> reversed[k] == compact[|compact| - 1 - k]
      invariant total == Chars(compact, index)
      invariant |reversed| <= limit
      invariant index < |compact| ==> Allowed(compact, index, maxMessages, maxChars)
    {
      var message := compact[index - 1];
      if |reversed| >= limit {
        break;
      }
      if |reversed| > 0 && maxChars > 0 && total + |message.content| > maxChars {
        break;
      }
      reversed := reversed + [message];
      total := total + |message.content|;
      index := index - 1;
    }
    forall i | 0 <= i < index ensures !Allowed(compact, i, maxMessages, maxChars) {
      CharsMonotone(compact, i, index - 1);
    }
    tail := Reverse(reversed);
    assert tail == compact[index..];
  }

  method Reverse(ms: seq<ChatMessage>) returns (r: seq<ChatMessage>)
    ensures |r| == |ms| && forall k :: 0 <= k < |ms| ==> r[k] == ms[|ms| - 1 - k]
  {
    r := [];
    for k := 0 to |ms|
      invariant |r| == k && forall j :: 0 <= j < k ==> r[j] == ms[|ms| - 1 - j]
    {
      r := r + [ms[|ms| - 1 - k]];
    }
  }

  // A shorter suffix of an allowed one is allowed, so the longest one is reached by adding messages one
  // at a time and stopping at the first that does not fit.
  lemma {:induction false} AllowedUpward(ms: seq<ChatMessage>, i: nat, j: nat, maxMessages: int, maxChars: int)
    requires i <= j < |ms| && Allowed(ms, i, maxMessages, maxChars)
    ensures Allowed(ms, j, maxMessages, maxChars)
  {
    CharsMonotone(ms, i, j);
  }
}
