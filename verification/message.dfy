/** Message truncation and message-key extraction, identical in
    `LogbackBatchDbAppender` and `LogbackDbAppender`. */
module Message {
  import opened Wrappers
  import opened Strings

  const MaxMsgLength: nat := 255
  const MaxMsgKeyLength: nat := 100
  /** A delimiter found at this index or earlier never ends a key. */
  const MinKeyIndex: int := 4

  /** The delimiters `getMessageKey` tries, in the order it tries them. */
  const Delimiters: seq<string> := [". ", "=", ": ", "-", "\n", "\t", "**"]

  /** The stored message: cut to its first 255 characters, no ellipsis. */
  function TruncateMessage(msg: string): (r: string)
    ensures r == Prefix(msg, MaxMsgLength)
    ensures |r| <= MaxMsgLength
  {
    if |msg| >= MaxMsgLength then msg[..MaxMsgLength] else msg
  }

  /** `findMessageKeyIndex`: move the key end back to the FIRST occurrence
      of `delimiter` when that occurrence is past `minIndex` and before the
      current end; otherwise keep the current end. */
  function FindMessageKeyIndex(oldIndex: int, message: string, minIndex: int, delimiter: string): (r: int)
    ensures r <= oldIndex
    ensures r == oldIndex || (r > minIndex && r == IndexOf(message, delimiter))
  {
    var i := IndexOf(message, delimiter);
    if oldIndex > i && i > minIndex then i else oldIndex
  }

  /** The chain of `findMessageKeyIndex` calls, one per delimiter in order. */
  function KeyEnd(end: int, message: string, delimiters: seq<string>): (r: int)
    ensures r <= end
    ensures r == end || r > MinKeyIndex
  {
    if delimiters == [] then end
    else KeyEnd(FindMessageKeyIndex(end, message, MinKeyIndex, delimiters[0]), message, delimiters[1..])
  }

  /** `getMessageKey` on a non-null message. */
  function GetMessageKey(message: string): (r: string)
    ensures |r| <= Min(|message|, MaxMsgKeyLength)
    ensures r == message[..|r|]
  {
    var m := if |message| >= MaxMsgKeyLength then message[..MaxMsgKeyLength] else message;
    var end := KeyEnd(|m|, m, Delimiters);
    if end > 0 then m[..end] else m
  }

  /** `GetMessageKey` is the cut message up to the end the delimiter chain
      settles on. */
  lemma KeyIsCutAtKeyEnd(msg: string)
    ensures var m := Prefix(msg, MaxMsgKeyLength);
            var end := KeyEnd(|m|, m, Delimiters);
            0 <= end <= |m| && GetMessageKey(msg) == m[..end]
  {
    var m := Prefix(msg, MaxMsgKeyLength);
    assert m == if |msg| >= MaxMsgKeyLength then msg[..MaxMsgKeyLength] else msg;
  }

  /** `getMessageKey` including its `null` case. */
  function MessageKey(message: Option<string>): (r: Option<string>)
    ensures r.None? <==> message.None?
    ensures message == Some("") ==> r == Some("")
    ensures r.Some? ==> |r.value| <= Min(|message.value|, MaxMsgKeyLength)
    ensures r.Some? ==> r.value == message.value[..|r.value|]
  {
    match message
    case None => None
    case Some(s) => Some(GetMessageKey(s))
  }

  // ---------------------------------------------------------------------
  // What the key is, independently of the order the delimiters are tried in

  /** A delimiter can end the key of `m` only if its first occurrence is past
      `MinKeyIndex`. */
  predicate Qualifies(m: string, d: string)
  {
    IndexOf(m, d) > MinKeyIndex
  }

  /** `e` is the least of `bound` and the first-occurrence index of every
      qualifying delimiter in `ds`. */
  predicate IsKeyEnd(e: int, bound: int, m: string, ds: seq<string>)
  {
    && e <= bound
    && (forall d :: d in ds && Qualifies(m, d) ==> e <= IndexOf(m, d))
    && (e == bound || exists d :: d in ds && Qualifies(m, d) && e == IndexOf(m, d))
  }

  /** The fold over the delimiters computes exactly that minimum. */
  lemma {:induction false} KeyEndIsMinimum(end: int, m: string, ds: seq<string>)
    ensures IsKeyEnd(KeyEnd(end, m, ds), end, m, ds)
    decreases |ds|
  {
    if ds != [] {
      var d := ds[0];
      var end' := FindMessageKeyIndex(end, m, MinKeyIndex, d);
      KeyEndIsMinimum(end', m, ds[1..]);
      var r := KeyEnd(end', m, ds[1..]);
      assert r == KeyEnd(end, m, ds);
      forall d' | d' in ds && Qualifies(m, d')
        ensures r <= IndexOf(m, d')
      {
        if d' != d {
          assert d' in ds[1..];
        }
      }
      if r != end {
        if r == end' {
          assert Qualifies(m, d) && r == IndexOf(m, d);
        } else {
          var w :| w in ds[1..] && Qualifies(m, w) && r == IndexOf(m, w);
          assert w in ds;
        }
      }
    }
  }

  /** At most one value is that minimum. */
  lemma KeyEndUnique(e1: int, e2: int, bound: int, m: string, ds1: seq<string>, ds2: seq<string>)
    requires forall d :: d in ds1 <==> d in ds2
    requires IsKeyEnd(e1, bound, m, ds1) && IsKeyEnd(e2, bound, m, ds2)
    ensures e1 == e2
  {
    if e1 != bound {
      var w :| w in ds1 && Qualifies(m, w) && e1 == IndexOf(m, w);
      assert e2 <= e1;
    }
    if e2 != bound {
      var w :| w in ds2 && Qualifies(m, w) && e2 == IndexOf(m, w);
      assert e1 <= e2;
    }
  }

  /** Trying the delimiters in any other order, or with repeats, gives the
      same key end: only the set of delimiters matters. */
  lemma DelimiterOrderIrrelevant(end: int, m: string, ds: seq<string>)
    requires forall d :: d in ds <==> d in Delimiters
    ensures KeyEnd(end, m, ds) == KeyEnd(end, m, Delimiters)
  {
    KeyEndIsMinimum(end, m, ds);
    KeyEndIsMinimum(end, m, Delimiters);
    KeyEndUnique(KeyEnd(end, m, ds), KeyEnd(end, m, Delimiters), end, m, ds, Delimiters);
  }

  /** The key of `msg`: a prefix of the first 100 characters whose length
      is the least of that cut length and every qualifying delimiter's
      first-occurrence index. */
  lemma KeyCharacterization(msg: string)
    ensures var m := Prefix(msg, MaxMsgKeyLength);
            var key := GetMessageKey(msg);
            && key == m[..|key|]
            && IsKeyEnd(|key|, |m|, m, Delimiters)
  {
    var m := Prefix(msg, MaxMsgKeyLength);
    KeyIsCutAtKeyEnd(msg);
    KeyEndIsMinimum(|m|, m, Delimiters);
  }

  /** The key is either the whole cut message or at least five characters
      long. */
  lemma KeyNeverTooShort(msg: string)
    ensures var key := GetMessageKey(msg);
            key == Prefix(msg, MaxMsgKeyLength) || |key| > MinKeyIndex
  {
    KeyIsCutAtKeyEnd(msg);
  }

  /** With no qualifying delimiter the key is the first 100 characters
      (the whole message when shorter). */
  lemma KeyWithoutDelimiter(msg: string)
    requires forall d :: d in Delimiters ==> !Qualifies(Prefix(msg, MaxMsgKeyLength), d)
    ensures GetMessageKey(msg) == Prefix(msg, MaxMsgKeyLength)
  {
    var m := Prefix(msg, MaxMsgKeyLength);
    KeyIsCutAtKeyEnd(msg);
    KeyEndIsMinimum(|m|, m, Delimiters);
  }

  /** When exactly one delimiter qualifies, the key ends at that
      delimiter's first occurrence. */
  lemma SingleQualifyingDelimiter(msg: string, d: string)
    requires d in Delimiters
    requires Qualifies(Prefix(msg, MaxMsgKeyLength), d)
    requires forall d' :: d' in Delimiters && d' != d ==> !Qualifies(Prefix(msg, MaxMsgKeyLength), d')
    ensures var m := Prefix(msg, MaxMsgKeyLength);
            IndexOf(m, d) < |m| && GetMessageKey(msg) == m[..IndexOf(m, d)]
  {
    var m := Prefix(msg, MaxMsgKeyLength);
    var key := GetMessageKey(msg);
    DelimiterCases(d);
    assert OccursAt(m, d, IndexOf(m, d));
    KeyCharacterization(msg);
    if |key| != |m| {
      var w :| w in Delimiters && Qualifies(m, w) && |key| == IndexOf(m, w);
    }
  }

  /** No character of `m` is in `cs`. */
  predicate NoneOf(m: string, cs: set<char>)
  {
    forall i :: 0 <= i < |m| ==> m[i] !in cs
  }

  /** When no character of `m` is the first character of a delimiter
      other than `keep`, no delimiter other than `keep` can end its key. */
  lemma OnlyOneCanQualify(m: string, keep: string, cs: set<char>)
    requires forall d :: d in Delimiters && d != keep ==> |d| > 0 && d[0] in cs
    requires NoneOf(m, cs)
    ensures forall d :: d in Delimiters && d != keep ==> !Qualifies(m, d)
  {
    forall d | d in Delimiters && d != keep
      ensures !Qualifies(m, d)
    {
      IndexOfAbsent(m, d);
    }
  }

  /** Only the FIRST occurrence of a delimiter is looked at: in `m` the
      `-` at index 2 is too early, which hides the `-` at index 9, so the
      key is the whole message. */
  lemma {:induction false} LaterOccurrenceIgnored(m: string)
    requires m == "ab-cdefgh-ij"
    ensures OccursAt(m, "-", 9)
    ensures GetMessageKey(m) == m
  {
    DashExampleChars(m);
    CharOccursAt(m, '-', 9);
    CharOccursAt(m, '-', 2);
    IndexOfAt(m, "-", 2);
    OnlyOneCanQualify(m, "-", {'.', '=', ':', '\n', '\t', '*'});
    KeyWithoutDelimiter(m);
  }

  /** The same message without the early `-`: the later one now ends the
      key. */
  lemma {:induction false} LaterOccurrenceCountsAlone(m: string)
    requires m == "ab_cdefgh-ij"
    ensures GetMessageKey(m) == "ab_cdefgh"
  {
    LoneDashExampleChars(m);
    CharOccursAt(m, '-', 9);
    IndexOfAt(m, "-", 9);
    OnlyOneCanQualify(m, "-", {'.', '=', ':', '\n', '\t', '*'});
    SingleQualifyingDelimiter(m, "-");
  }

  // The character-level facts of the example messages, each kept apart so
  // that the literal is unfolded in a small context.

  lemma DashExampleChars(m: string)
    requires m == "ab-cdefgh-ij"
    ensures Prefix(m, MaxMsgKeyLength) == m
    ensures m[2] == '-' && m[9] == '-' && '-' !in m[..2]
    ensures NoneOf(m, {'.', '=', ':', '\n', '\t', '*'})
  {
  }

  lemma LoneDashExampleChars(m: string)
    requires m == "ab_cdefgh-ij"
    ensures Prefix(m, MaxMsgKeyLength) == m
    ensures m[9] == '-' && '-' !in m[..9] && m[..9] == "ab_cdefgh"
    ensures NoneOf(m, {'.', '=', ':', '\n', '\t', '*'})
  {
  }

  lemma ColonExampleChars(m: string)
    requires m == "Error: something broke"
    ensures Prefix(m, MaxMsgKeyLength) == m
    ensures m[..5] == "Error" && m[5..7] == ": " && ':' !in m[..5]
    ensures NoneOf(m, {'.', '=', '-', '\n', '\t', '*'})
  {
  }

  lemma ShortExampleChars(s: string)
    requires s == "short"
    ensures Prefix(s, MaxMsgKeyLength) == s
    ensures NoneOf(s, {'.', '=', ':', '\n', '\t', '*'}) && '-' !in s
  {
  }

  lemma DelimiterCases(d: string)
    requires d in Delimiters
    ensures d == ". " || d == "=" || d == ": " || d == "-" || d == "\n" || d == "\t" || d == "**"
  {
  }

  /** The worked examples: ": " at index 5 ends the first key; a message
      without delimiters is its own key. */
  lemma {:induction false} KeyExample(m: string, s: string)
    requires m == "Error: something broke" && s == "short"
    ensures GetMessageKey(m) == "Error"
    ensures GetMessageKey(s) == s
  {
    KeyExampleColon(m);
    KeyExampleShort(s);
  }

  lemma {:induction false} KeyExampleColon(m: string)
    requires m == "Error: something broke"
    ensures GetMessageKey(m) == "Error"
  {
    ColonExampleChars(m);
    IndexOfAt(m, ": ", 5);
    OnlyOneCanQualify(m, ": ", {'.', '=', '-', '\n', '\t', '*'});
    SingleQualifyingDelimiter(m, ": ");
  }

  lemma {:induction false} KeyExampleShort(s: string)
    requires s == "short"
    ensures GetMessageKey(s) == s
  {
    ShortExampleChars(s);
    OnlyOneCanQualify(s, "-", {'.', '=', ':', '\n', '\t', '*'});
    IndexOfAbsent(s, "-");
    KeyWithoutDelimiter(s);
  }
}
