/** Rendering of the message feed into the bounded text context (qa_app.py, build_context). */
module MemberContext {
  import opened Wrappers
  import opened Strings

  /** One feed record; an absent field is `None`. Other fields of the record are ignored. */
  datatype Item = Item(userName: Option<string>, message: Option<string>, timestamp: Option<string>)

  /** The feed's JSON object; `items` is `None` when the key is missing. */
  datatype MessagesJson = MessagesJson(items: Option<seq<Item>>)

  const HEADER: string := "Member messages:\n"
  const UNKNOWN_USER: string := "Unknown"
  const MAX_CONTEXT_CHARS: nat := 6000

  function ItemsOf(data: MessagesJson): seq<Item> {
    data.items.GetOr([])
  }

  /** The line `- {user} (on {ts}): {msg}` for one record, with the field defaults applied. */
  function RenderLine(it: Item): string {
    "- " + it.userName.GetOr(UNKNOWN_USER) + " (on " + it.timestamp.GetOr("") + "): "
      + it.message.GetOr("")
  }

  function RenderLines(items: seq<Item>): seq<string> {
    seq(|items|, k requires 0 <= k < |items| => RenderLine(items[k]))
  }

  /** The list the source joins: the header, then one line per record in feed order. */
  function ContextLines(data: MessagesJson): (lines: seq<string>)
    ensures |lines| == |ItemsOf(data)| + 1
    ensures lines[0] == HEADER
    ensures forall k :: 0 <= k < |ItemsOf(data)| ==> lines[k + 1] == RenderLine(ItemsOf(data)[k])
  {
    [HEADER] + RenderLines(ItemsOf(data))
  }

  /** The context before trimming: the lines joined by newlines. */
  function FullContext(data: MessagesJson): string {
    Join(ContextLines(data), "\n")
  }

  /** Keeps the last MAX_CONTEXT_CHARS characters of `s` (Python's `s[-6000:]`) when `s` is longer. */
  function TrimContext(s: string): (r: string)
    ensures |r| <= MAX_CONTEXT_CHARS
    ensures IsSuffix(r, s)
    ensures |s| <= MAX_CONTEXT_CHARS ==> r == s
    ensures |s| > MAX_CONTEXT_CHARS ==> |r| == MAX_CONTEXT_CHARS
  {
    if |s| > MAX_CONTEXT_CHARS then s[|s| - MAX_CONTEXT_CHARS..] else s
  }

  /** What build_context returns for `data`. */
  function ContextOf(data: MessagesJson): string {
    TrimContext(FullContext(data))
  }

  /** build_context: collects the lines in a loop, joins them and trims the result. */
  method BuildContext(data: MessagesJson) returns (context: string)
    ensures context == ContextOf(data)
    ensures |context| <= MAX_CONTEXT_CHARS
    ensures ItemsOf(data) == [] ==> context == HEADER
  {
    var items := data.items.GetOr([]);
    var lines := [HEADER];
    for i := 0 to |items|
      invariant lines == [HEADER] + RenderLines(items[..i])
    {
      lines := lines + [RenderLine(items[i])];
    }
    assert items[..|items|] == items;
    var full := Join(lines, "\n");
    context := if |full| > MAX_CONTEXT_CHARS then full[|full| - MAX_CONTEXT_CHARS..] else full;
  }

  /** The untrimmed context is the header followed by a newline and a line for each record. */
  lemma FullContextShape(data: MessagesJson)
    ensures FullContext(data) == HEADER + PrefixEach("\n", RenderLines(ItemsOf(data)))
  {
    JoinCons(HEADER, RenderLines(ItemsOf(data)), "\n");
  }

  /** Where the line of record `k` starts (after its preceding newline) in the untrimmed context. */
  function LineOffset(items: seq<Item>, k: nat): nat
    requires k <= |items|
  {
    |HEADER| + |PrefixEach("\n", RenderLines(items)[..k])| + 1
  }

  /** Each record's line appears verbatim, after a newline, at its offset in the untrimmed context. */
  lemma LineOccurs(data: MessagesJson, k: nat)
    requires k < |ItemsOf(data)|
    ensures var items := ItemsOf(data);
      OccursAt("\n" + RenderLine(items[k]), FullContext(data), LineOffset(items, k) - 1)
  {
    JoinedPartOccurs(HEADER, RenderLines(ItemsOf(data)), "\n", k);
  }

  /** The lines follow the feed order: the line of record `j` ends before that of a later `k` starts. */
  lemma LinesInFeedOrder(data: MessagesJson, j: nat, k: nat)
    requires j < k < |ItemsOf(data)|
    ensures var items := ItemsOf(data);
      LineOffset(items, j) + |RenderLine(items[j])| < LineOffset(items, k)
  {
    var lines := RenderLines(ItemsOf(data));
    var upToK := lines[..k];
    assert upToK[..j] == lines[..j] && upToK[j] == lines[j];
    PrefixEachSplit("\n", upToK, j);
  }

  /** Every tail of the untrimmed context that fits in the budget survives trimming. */
  lemma TrimKeepsShortTails(data: MessagesJson, tail: string)
    requires IsSuffix(tail, FullContext(data))
    requires |tail| <= MAX_CONTEXT_CHARS
    ensures IsSuffix(tail, ContextOf(data))
  {
    var full := FullContext(data);
    var ctx := ContextOf(data);
    if |full| > MAX_CONTEXT_CHARS {
      assert ctx[|ctx| - |tail|..] == full[|full| - |tail|..];
    }
  }

  /** The newest record's line is kept whole whenever it fits in the budget by itself. */
  lemma LastLineKept(data: MessagesJson)
    requires ItemsOf(data) != []
    requires 1 + |RenderLine(ItemsOf(data)[|ItemsOf(data)| - 1])| <= MAX_CONTEXT_CHARS
    ensures IsSuffix("\n" + RenderLine(ItemsOf(data)[|ItemsOf(data)| - 1]), ContextOf(data))
  {
    var items := ItemsOf(data);
    var lines := RenderLines(items);
    FullContextShape(data);
    PrefixEachLast("\n", lines);
    SuffixOfAppend("\n" + lines[|lines| - 1], HEADER, PrefixEach("\n", lines));
    TrimKeepsShortTails(data, "\n" + RenderLine(items[|items| - 1]));
  }

  /** An absent `user_name` renders as Unknown; an absent message or timestamp as the empty string. */
  lemma MissingFieldDefaults(u: Option<string>, m: Option<string>, t: Option<string>)
    ensures RenderLine(Item(None, m, t)) == RenderLine(Item(Some(UNKNOWN_USER), m, t))
    ensures RenderLine(Item(u, None, t)) == RenderLine(Item(u, Some(""), t))
    ensures RenderLine(Item(u, m, None)) == RenderLine(Item(u, m, Some("")))
    ensures RenderLine(Item(None, None, None)) == "- Unknown (on ): "
  {
    assert RenderLine(Item(None, None, None)) == "- " + UNKNOWN_USER + " (on " + "): ";
  }
}
