/** Truncation of messages that exceed a channel's limit; strings are sequences of bytes. */
module Truncate {
  const MARKER := "Alert Id:"

  /** What the kept layout adds: "\n...\n\n*" before the warning and "*\n" after it. */
  const FORMAT_SPECIAL_CHARS_LENGTH := 9

  predicate OccursAt(s: string, m: string, i: int) {
    0 <= i && i + |m| <= |s| && s[i..i + |m|] == m
  }

  /** The last occurrence of m starting at most at i, or -1. */
  function LastIndexUpTo(s: string, m: string, i: int): (r: int)
    requires i >= -1
    ensures -1 <= r <= i
    ensures r >= 0 ==> OccursAt(s, m, r)
    ensures forall j | r < j <= i :: !OccursAt(s, m, j)
  {
    if i == -1 then -1 else if OccursAt(s, m, i) then i else LastIndexUpTo(s, m, i - 1)
  }

  function LastIndex(s: string, m: string): int {
    LastIndexUpTo(s, m, |s|)
  }

  /** Room for leading text when the tail from the last marker is kept. */
  function MaxTextLength(limit: int, warn: string, alertText: string): int {
    limit - |warn| - |alertText| - FORMAT_SPECIAL_CHARS_LENGTH
  }

  /** Without a marker the message is cut at limit - |warn| - 1, which must not be negative. */
  function TruncateMessageWithAlertID(message: string, limit: int, warn: string): string
    requires |message| > limit && LastIndex(message, MARKER) == -1 ==> limit >= |warn| + 1
  {
    if |message| <= limit then message
    else
      var alertIndex := LastIndex(message, MARKER);
      if alertIndex == -1 then warn + "\n" + message[..limit - |warn| - 1]
      else
        var alertText := message[alertIndex..];
        var maxTextLength := MaxTextLength(limit, warn, alertText);
        if maxTextLength > 0 && alertIndex > maxTextLength
        then message[..maxTextLength] + "\n...\n\n*" + warn + "*\n" + alertText
        else warn + "\n" + alertText
  }

  predicate IsSuffix(tail: string, s: string) {
    |tail| <= |s| && s[|s| - |tail|..] == tail
  }

  /** Once there is room for leading text, there is that much of it: the second guard always holds. */
  lemma GuardIsRedundant(message: string, limit: int, warn: string)
    requires |message| > limit && LastIndex(message, MARKER) >= 0
    ensures var i := LastIndex(message, MARKER);
            MaxTextLength(limit, warn, message[i..]) > 0 ==> i > MaxTextLength(limit, warn, message[i..])
  {
    assert |message[LastIndex(message, MARKER)..]| == |message| - LastIndex(message, MARKER);
  }

  lemma OccursInTail(s: string, m: string, i: nat, j: nat)
    requires i <= |s|
    ensures OccursAt(s[i..], m, j) <==> OccursAt(s, m, i + j)
  {
    if i + j + |m| <= |s| {
      assert s[i..][j..j + |m|] == s[i + j..i + j + |m|];
    }
  }

  /** A message within the limit is left alone. */
  lemma ShortIsUntouched(message: string, limit: int, warn: string)
    requires |message| <= limit
    ensures TruncateMessageWithAlertID(message, limit, warn) == message
  {
  }

  /** A message without a marker is cut to exactly the limit: the warning, a line break, and its beginning. */
  lemma CutWithoutMarker(message: string, limit: int, warn: string)
    requires |message| > limit >= |warn| + 1 && LastIndex(message, MARKER) == -1
    ensures |TruncateMessageWithAlertID(message, limit, warn)| == limit
    ensures var r := TruncateMessageWithAlertID(message, limit, warn);
            && warn <= r && r[|warn|] == '\n'
            && forall j | 0 <= j < limit - |warn| - 1 :: r[|warn| + 1 + j] == message[j]
  {
    assert |"\n"| == 1;
  }

  /**
   A message with a marker keeps everything from the last marker on. Where leading
   text is kept as well, the result has exactly the limit's length; and it is within
   the limit if and only if the tail, the warning and a line break are.
   */
  lemma CutAtLastMarker(message: string, limit: int, warn: string)
    requires |message| > limit && LastIndex(message, MARKER) >= 0
    ensures var r := TruncateMessageWithAlertID(message, limit, warn);
            var tail := message[LastIndex(message, MARKER)..];
            var room := MaxTextLength(limit, warn, tail);
            && MARKER <= tail && IsSuffix(tail, r)
            && (forall j | 0 < j <= |tail| :: !OccursAt(tail, MARKER, j))
            && (room > 0 ==> |r| == limit && room < |message| && message[..room] <= r)
            && (room > 0 ==> r[room + 7..room + 7 + |warn|] == warn)
            && (room <= 0 ==> |r| == |warn| + 1 + |tail| && warn <= r && r[|warn|] == '\n')
            && (|r| <= limit <==> |tail| + |warn| + 1 <= limit)
  {
    var i := LastIndex(message, MARKER);
    var r, tail := TruncateMessageWithAlertID(message, limit, warn), message[i..];
    GuardIsRedundant(message, limit, warn);
    assert |"\n...\n\n*"| == 7 && |"*\n"| == 2 && |"\n"| == 1;
    forall j: nat | j <= |tail| ensures OccursAt(tail, MARKER, j) <==> j == 0 {
      OccursInTail(message, MARKER, i, j);
    }
    assert OccursAt(tail, MARKER, 0);
    var room := MaxTextLength(limit, warn, tail);
    if room > 0 {
      assert r == (message[..room] + "\n...\n\n*" + warn + "*\n") + tail;
      assert |message[..room] + "\n...\n\n*"| == room + 7;
      assert r == (message[..room] + "\n...\n\n*") + (warn + ("*\n" + tail));
    } else {
      assert r == (warn + "\n") + tail;
    }
  }
}
