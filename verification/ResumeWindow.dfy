/**
 The bounded transcript window shown after `/resume`: UTF-8 truncation by binary search over UTF-16
 prefixes, and the newest-first loop that fills the window under a global byte ceiling.
 */
module ResumeWindow {
  import opened Utf16
  import opened Json

  const WINDOW_MESSAGES: nat := 50
  const WINDOW_BYTES: nat := 262144
  const ENTRY_BYTES: nat := 65536
  const ENTRY_OVERHEAD_BYTES: nat := 128
  const MINIMUM_REMAINING: nat := 256

  // "\n", then U+2026, then the ASCII rest of the notice.
  const NOTICE: string := " [display truncated; full content remains durable]"
  const SUFFIX: Text := [0x0A] + [0x2026] + Ascii(NOTICE)
  const SUFFIX_BYTES: nat := 54

  function Ascii(s: string): (t: Text)
    ensures |t| == |s|
    ensures forall i :: 0 <= i < |t| ==> t[i] < 0x80
  {
    seq(|s|, i requires 0 <= i < |s| => if s[i] as int < 0x80 then s[i] as int else 0)
  }

  lemma SuffixCost()
    ensures ByteLength(SUFFIX) == SUFFIX_BYTES
  {
    assert |NOTICE| == 50;
    AsciiByteLength(Ascii(NOTICE));
    AsciiByteLength([0x0A]);
    assert ByteLength([0x2026]) == 3 by { assert [0x2026][1..] == []; }
    ByteLengthConcat([0x0A], [0x2026]);
    ByteLengthConcat([0x0A] + [0x2026], Ascii(NOTICE));
  }

  // ----- Truncation ---------------------------------------------------------------------------

  datatype Projection = Projection(value: Text, truncated: bool)

  /** The length of the longest prefix, among those of at most `n` units, that costs at most `budget`. */
  ghost function LongestFit(v: Text, budget: nat, n: nat): (i: nat)
    requires n <= |v|
    ensures i <= n && ByteLength(v[..i]) <= budget
    ensures forall j :: i < j <= n ==> ByteLength(v[..j]) > budget
  {
    if ByteLength(v[..n]) <= budget then n
    else
      assert n > 0 by { assert v[..0] == []; }
      LongestFit(v, budget, n - 1)
  }

  ghost function PrefixBudget(maxBytes: int): nat {
    if maxBytes < SUFFIX_BYTES then 0 else maxBytes - SUFFIX_BYTES
  }

  /** What the code keeps: the longest fit, without a final high surrogate. */
  ghost function Kept(v: Text, budget: nat): (i: nat)
    ensures i <= |v|
  {
    var fit := LongestFit(v, budget, |v|);
    if fit > 0 && IsHigh(v[fit - 1]) then fit - 1 else fit
  }

  ghost function Truncated(v: Text, maxBytes: int): Projection {
    if ByteLength(v) <= maxBytes then Projection(v, false)
    else Projection(v[..Kept(v, PrefixBudget(maxBytes))] + SUFFIX, true)
  }

  method TruncateUtf8ForResume(value: Text, maxBytes: int) returns (r: Projection)
    ensures r == Truncated(value, maxBytes)
  {
    if ByteLength(value) <= maxBytes {
      return Projection(value, false);
    }
    SuffixCost();
    var prefixBudget := if maxBytes - ByteLength(SUFFIX) < 0 then 0 else maxBytes - ByteLength(SUFFIX);
    var low, high := 0, |value|;
    while low < high
      invariant 0 <= low <= high <= |value|
      invariant ByteLength(value[..low]) <= prefixBudget
      invariant forall j :: high < j <= |value| ==> ByteLength(value[..j]) > prefixBudget
      decreases high - low
    {
      var middle := (low + high + 1) / 2;
      if ByteLength(value[..middle]) <= prefixBudget {
        low := middle;
      } else {
        forall j | middle <= j <= |value| ensures ByteLength(value[..j]) > prefixBudget {
          PrefixCostGrows(value, middle, j);
        }
        high := middle - 1;
      }
    }
    assert low == LongestFit(value, prefixBudget, |value|);
    var prefix := value[..low];
    if low > 0 && IsHigh(prefix[low - 1]) {
      prefix := prefix[..low - 1];
      assert prefix == value[..low - 1];
    }
    r := Projection(prefix + SUFFIX, true);
  }

  /** The first `i` units are whole code points: the cut does not separate a pair. */
  predicate WholeCut(v: Text, i: int) {
    0 <= i <= |v| && !PairAt(v, i - 1)
  }

  ghost predicate LongestWholeFit(v: Text, budget: nat, i: int) {
    && WholeCut(v, i) && ByteLength(v[..i]) <= budget
    && forall j :: i < j && WholeCut(v, j) ==> ByteLength(v[..j]) > budget
  }

  /** The longest fit ends in a high surrogate that has no partner in the text. */
  ghost predicate EndsInLoneHigh(v: Text, budget: nat) {
    var fit := LongestFit(v, budget, |v|);
    fit > 0 && IsHigh(v[fit - 1]) && !PairAt(v, fit - 1)
  }

  /**
   The kept prefix never splits a code point and never exceeds the budget. It is the longest such
   prefix exactly when the longest fit does not end in an unpaired high surrogate: such a surrogate
   is a whole code point of its own, yet the code drops it.
   */
  lemma KeptIsLongestWholeFit(v: Text, budget: nat)
    ensures WholeCut(v, Kept(v, budget)) && ByteLength(v[..Kept(v, budget)]) <= budget
    ensures LongestWholeFit(v, budget, Kept(v, budget)) <==> !EndsInLoneHigh(v, budget)
  {
    var fit: int := LongestFit(v, budget, |v|);
    var kept: int := Kept(v, budget);
    PrefixCostGrows(v, kept, fit);
    if kept < fit {
      assert !PairAt(v, kept - 1);
      if EndsInLoneHigh(v, budget) {
        assert WholeCut(v, fit) && kept < fit;
      } else {
        assert !WholeCut(v, fit);
      }
    } else {
      assert WholeCut(v, fit);
    }
  }

  /** A concrete text for which the longest whole prefix is not kept. */
  lemma LoneHighIsDropped()
    ensures var v: Text := [0xD800, 0x41, 0x41, 0x41];
            EndsInLoneHigh(v, 3) && Kept(v, 3) == 0 && WholeCut(v, 1) && ByteLength(v[..1]) <= 3
  {
    var v: Text := [0xD800, 0x41, 0x41, 0x41];
    assert v[..1] == [] + [0xD800];
    assert v[..2] == v[..1] + [0x41];
    assert v[..0] == [];
    ByteLengthSnoc([], 0xD800);
    ByteLengthSnoc(v[..1], 0x41);
    forall j | 2 <= j <= |v| ensures ByteLength(v[..j]) > 3 { PrefixCostGrows(v, 2, j); }
    assert LongestFit(v, 3, |v|) == 1;
  }

  /** A truncated text fits its limit exactly when the limit covers the notice. */
  lemma TruncatedFits(v: Text, maxBytes: int)
    ensures var r := Truncated(v, maxBytes);
          && (r.truncated <==> ByteLength(v) > maxBytes)
            && (!r.truncated ==> r.value == v)
            && (r.truncated ==> (ByteLength(r.value) <= maxBytes <==> maxBytes >= SUFFIX_BYTES))
  {
    if ByteLength(v) > maxBytes {
      var budget := PrefixBudget(maxBytes);
      KeptIsLongestWholeFit(v, budget);
      SuffixCost();
      ByteLengthConcat(v[..Kept(v, budget)], SUFFIX);
    }
  }

  // ----- The window ---------------------------------------------------------------------------

  datatype Role = User | Assistant | Tool | System
  datatype Message = Message(role: Role, content: Text)

  /** The id names the session and the 1-based position of the message in the transcript. */
  datatype EntryId = EntryId(session: string, position: nat)
  datatype Entry = Entry(id: EntryId, role: Role, content: Text, title: Option<string>)
  datatype Window = Window(entries: seq<Entry>, truncated: bool)

  /** Bytes charged for the newest `k` messages. */
  ghost function Spent(messages: seq<Message>, k: nat): nat
    requires k <= |messages|
    decreases k, 0
  {
    if k == 0 then 0
    else Spent(messages, k - 1) + ByteLength(Shown(messages, k - 1).value) + ENTRY_OVERHEAD_BYTES
  }

  /** What is left for the content of the `k`-th newest message, counting from 0. */
  ghost function Remaining(messages: seq<Message>, k: nat): int
    requires k <= |messages|
    decreases k, 1
  {
    WINDOW_BYTES - Spent(messages, k) - ENTRY_OVERHEAD_BYTES
  }

  function Min(a: int, b: int): int { if a < b then a else b }

  ghost function Shown(messages: seq<Message>, k: nat): Projection
    requires k < |messages|
    decreases k, 2
  {
    Truncated(messages[|messages| - 1 - k].content, Min(Remaining(messages, k), ENTRY_BYTES))
  }

  /** The loop takes no further message after the newest `k`. */
  ghost predicate Stops(messages: seq<Message>, k: nat)
    requires k <= |messages|
  {
    k == |messages| || k == WINDOW_MESSAGES || Remaining(messages, k) < MINIMUM_REMAINING
  }

  function EntryFor(session: string, messages: seq<Message>, index: nat, content: Text): Entry
    requires index < |messages|
  {
    var role := messages[index].role;
    Entry(EntryId(session, index + 1), role, content, if role.User? then Some("you") else None)
  }

  /** The entry for the `k`-th newest message. */
  ghost function NewestEntry(session: string, messages: seq<Message>, k: nat): Entry
    requires k < |messages|
  {
    EntryFor(session, messages, |messages| - 1 - k, Shown(messages, k).value)
  }

  /** `entries` shows the newest messages, oldest first, each at its own truncation. */
  ghost predicate ShowsTail(session: string, messages: seq<Message>, entries: seq<Entry>) {
    && |entries| <= |messages|
    && forall k :: 0 <= k < |entries| ==>
         entries[|entries| - 1 - k] == NewestEntry(session, messages, k)
  }

  /** Content bytes plus the charge for each entry. */
  ghost function WindowCost(entries: seq<Entry>): nat {
    if entries == [] then 0
    else ByteLength(entries[0].content) + ENTRY_OVERHEAD_BYTES + WindowCost(entries[1..])
  }

  ghost predicate AnyCut(messages: seq<Message>, k: nat)
    requires k <= |messages|
  {
    exists j :: 0 <= j < k && Shown(messages, j).truncated
  }

  /** While the loop runs, `k` entries cost at most 65 664 bytes each and never pass the ceiling. */
  lemma {:induction false} SpentIsBounded(messages: seq<Message>, k: nat)
    requires k <= |messages|
    requires forall j :: 0 <= j < k ==> !Stops(messages, j)
    ensures Spent(messages, k) <= WINDOW_BYTES
    ensures Spent(messages, k) <= k * (ENTRY_BYTES + ENTRY_OVERHEAD_BYTES)
  {
    if k > 0 {
      SpentIsBounded(messages, k - 1);
      var limit := Min(Remaining(messages, k - 1), ENTRY_BYTES);
      assert !Stops(messages, k - 1);
      TruncatedFits(messages[|messages| - k].content, limit);
    }
  }

  /** The window stays within 262 144 bytes and 50 entries and always reaches the newest four. */
  lemma WindowBounds(messages: seq<Message>, n: nat)
    requires n <= |messages|
    requires Stops(messages, n) && forall k :: 0 <= k < n ==> !Stops(messages, k)
    ensures n <= WINDOW_MESSAGES && Spent(messages, n) <= WINDOW_BYTES
    ensures n >= Min(4, |messages|)
    ensures n < |messages| && n < WINDOW_MESSAGES
            ==> Spent(messages, n) > WINDOW_BYTES - ENTRY_OVERHEAD_BYTES - MINIMUM_REMAINING
  {
    assert WINDOW_MESSAGES <= |messages| ==> Stops(messages, WINDOW_MESSAGES);
    SpentIsBounded(messages, n);
  }

  /** The ceiling is kept on the entries themselves, not only on the running count. */
  lemma {:induction false} CostIsSpent(session: string, messages: seq<Message>, entries: seq<Entry>)
    requires ShowsTail(session, messages, entries)
    ensures WindowCost(entries) == Spent(messages, |entries|)
  {
    if entries != [] {
      var k, rest := |entries| - 1, entries[1..];
      assert entries[0] == NewestEntry(session, messages, k);
      forall j | 0 <= j < k ensures rest[k - 1 - j] == NewestEntry(session, messages, j) {
        assert rest[k - 1 - j] == entries[|entries| - 1 - j];
      }
      CostIsSpent(session, messages, rest);
    }
  }

  /** Every message of the transcript appears with its whole content. */
  ghost predicate ShowsEverything(messages: seq<Message>, entries: seq<Entry>) {
    && |entries| == |messages|
    && forall i :: 0 <= i < |messages| ==> entries[i].content == messages[i].content
  }

  /** `truncated` is false exactly when every message is shown in full. */
  lemma TruncatedFlagIsExact(session: string, messages: seq<Message>, w: Window)
    requires ShowsTail(session, messages, w.entries)
    requires forall k :: 0 <= k < |w.entries| ==> !Stops(messages, k)
    requires w.truncated <==> AnyCut(messages, |w.entries|) || |w.entries| < |messages|
    ensures !w.truncated <==> ShowsEverything(messages, w.entries)
  {
    var n := |w.entries|;
    if n == |messages| {
      forall k | 0 <= k < n
        ensures !Shown(messages, k).truncated
           <==> w.entries[n - 1 - k].content == messages[n - 1 - k].content
      {
        assert !Stops(messages, k);
        TruncatedFits(messages[n - 1 - k].content, Min(Remaining(messages, k), ENTRY_BYTES));
        assert w.entries[n - 1 - k] == NewestEntry(session, messages, k);
      }
      if !w.truncated {
        forall i | 0 <= i < n ensures w.entries[i].content == messages[i].content {
          assert !Shown(messages, n - 1 - i).truncated;
        }
      }
    }
  }

  /** Invariant of the loop: the newest `|entries|` messages were taken, and none stopped it. */
  ghost predicate Filled(session: string, messages: seq<Message>, entries: seq<Entry>, bytes: nat, cut: bool) {
    && ShowsTail(session, messages, entries)
    && bytes == Spent(messages, |entries|)
    && (cut <==> AnyCut(messages, |entries|))
    && forall k :: 0 <= k < |entries| ==> !Stops(messages, k)
  }

  lemma FilledStep(session: string, messages: seq<Message>, entries: seq<Entry>, bytes: nat, cut: bool)
    requires Filled(session, messages, entries, bytes, cut)
    requires !Stops(messages, |entries|)
    ensures var shown := Shown(messages, |entries|);
            Filled(session, messages, [NewestEntry(session, messages, |entries|)] + entries,
                   bytes + ByteLength(shown.value) + ENTRY_OVERHEAD_BYTES, cut || shown.truncated)
  {
    var n := |entries|;
    var longer := [NewestEntry(session, messages, n)] + entries;
    forall k | 0 <= k < n ensures longer[n - k] == NewestEntry(session, messages, k) {
      assert longer[n - k] == entries[n - 1 - k];
    }
    assert AnyCut(messages, n + 1) <==> AnyCut(messages, n) || Shown(messages, n).truncated;
  }

  /** What the finished loop promises about the window. */
  lemma FilledWindow(session: string, messages: seq<Message>, w: Window, bytes: nat, cut: bool)
    requires Filled(session, messages, w.entries, bytes, cut)
    requires Stops(messages, |w.entries|)
    requires w.truncated <==> cut || |w.entries| < |messages|
    ensures Min(4, |messages|) <= |w.entries| <= WINDOW_MESSAGES
    ensures WindowCost(w.entries) <= WINDOW_BYTES
    ensures |w.entries| < |messages| && |w.entries| < WINDOW_MESSAGES
            ==> WindowCost(w.entries) > WINDOW_BYTES - ENTRY_OVERHEAD_BYTES - MINIMUM_REMAINING
    ensures !w.truncated <==> ShowsEverything(messages, w.entries)
  {
    WindowBounds(messages, |w.entries|);
    CostIsSpent(session, messages, w.entries);
    TruncatedFlagIsExact(session, messages, w);
  }

  /** The newest messages, as many as fit, oldest first; the flag tells whether anything is missing. */
  method CreateResumeTranscriptWindow(session: string, messages: seq<Message>) returns (w: Window)
    ensures ShowsTail(session, messages, w.entries)
    ensures Min(4, |messages|) <= |w.entries| <= WINDOW_MESSAGES
    ensures WindowCost(w.entries) <= WINDOW_BYTES
    ensures |w.entries| < |messages| && |w.entries| < WINDOW_MESSAGES
            ==> WindowCost(w.entries) > WINDOW_BYTES - ENTRY_OVERHEAD_BYTES - MINIMUM_REMAINING
    ensures !w.truncated <==> ShowsEverything(messages, w.entries)
  {
    var entries: seq<Entry> := [];
    var bytes: nat := 0;
    var contentTruncated := false;
    var index := |messages| - 1;
    while index >= 0 && |entries| < WINDOW_MESSAGES
      invariant |entries| == |messages| - 1 - index <= |messages|
      invariant |entries| <= WINDOW_MESSAGES
      invariant Filled(session, messages, entries, bytes, contentTruncated)
      decreases index + 1
    {
      var remaining := WINDOW_BYTES - bytes - ENTRY_OVERHEAD_BYTES;
      if remaining < MINIMUM_REMAINING {
        break;
      }
      var projected := TruncateUtf8ForResume(messages[index].content, Min(remaining, ENTRY_BYTES));
      FilledStep(session, messages, entries, bytes, contentTruncated);
      contentTruncated := contentTruncated || projected.truncated;
      entries := [EntryFor(session, messages, index, projected.value)] + entries;
      bytes := bytes + ByteLength(projected.value) + ENTRY_OVERHEAD_BYTES;
      index := index - 1;
    }
    w := Window(entries, contentTruncated || |entries| < |messages|);
    FilledWindow(session, messages, w, bytes, contentTruncated);
  }
}
