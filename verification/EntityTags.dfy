/** The If-None-Match list parser and the weak comparison (sections 5.6.1, 8.8.3, 8.8.3.2 and 13.1.2 of
    RFC 9110). */
module EntityTags {
  import opened Wrappers

  // ----- characters -----

  predicate IsOws(c: char) {
    c == ' ' || c == '\t'
  }

  /** What the list parser accepts inside the quotes. */
  predicate IsTagChar(c: char) {
    c as int == 0x21 || 0x23 <= c as int <= 0x7e || c as int >= 0x80
  }

  /** What the comparison's pattern accepts inside the quotes: the `etagc` of section 8.8.3, one byte each. */
  predicate IsEtagc(c: char) {
    c as int == 0x21 || 0x23 <= c as int <= 0x7e || 0x80 <= c as int <= 0xff
  }

  /** The white space `String.prototype.trim` strips. */
  predicate IsSpace(c: char) {
    var n := c as int;
    || 0x09 <= n <= 0x0d || n == 0x20 || n == 0xa0 || n == 0x1680 || 0x2000 <= n <= 0x200a
    || n == 0x2028 || n == 0x2029 || n == 0x202f || n == 0x205f || n == 0x3000 || n == 0xfeff
  }

  function TrimStart(s: string): string {
    if s != "" && IsSpace(s[0]) then TrimStart(s[1..]) else s
  }

  function TrimEnd(s: string): string {
    if s != "" && IsSpace(s[|s| - 1]) then TrimEnd(s[..|s| - 1]) else s
  }

  function Trim(s: string): string {
    TrimEnd(TrimStart(s))
  }

  predicate All(s: string, p: char -> bool) {
    forall i :: 0 <= i < |s| ==> p(s[i])
  }

  /** The characters of section 8.8.3: every visible ASCII character but the quote, and everything from 0x80 on,
      which the comparison takes to be one byte. White space, controls and DEL are out. The two kinds of white
      space are spaces and tabs between elements, and what trimming strips around a whole field. */
  lemma TagCharactersAre(c: char)
    ensures IsTagChar(c) <==> '!' <= c && c != '"' && c as int != 0x7f
    ensures IsEtagc(c) <==> IsTagChar(c) && c as int <= 0xff
    ensures IsOws(c) <==> c as int in {0x20, 0x09}
    ensures IsTagChar(c) ==> !IsOws(c)
    ensures IsSpace(c) <==> c as int in {
              0x20, 0x09, 0x0a, 0x0b, 0x0c, 0x0d, 0xa0, 0x1680, 0x2000, 0x2001, 0x2002, 0x2003, 0x2004, 0x2005, 0x2006,
              0x2007, 0x2008, 0x2009, 0x200a, 0x2028, 0x2029, 0x202f, 0x205f, 0x3000, 0xfeff}
  {
  }

  // ----- printed lists -----

  /** One list element with the optional white space around it. */
  datatype Item = Item(before: string, weak: bool, tag: string, after: string)

  predicate ValidItem(item: Item) {
    All(item.before, IsOws) && All(item.after, IsOws) && All(item.tag, IsTagChar)
  }

  /** The opaque tag of section 8.8.3: the quoted string without the weakness prefix. */
  function Quoted(tag: string): string {
    "\"" + tag + "\""
  }

  function Text(weak: bool, tag: string): string {
    (if weak then "W/" else "") + Quoted(tag)
  }

  function Print(item: Item): string {
    item.before + Text(item.weak, item.tag) + item.after
  }

  function Render(items: seq<Item>): string {
    if items == [] then "" else Print(items[0]) + if |items| == 1 then "" else "," + Render(items[1..])
  }

  function Texts(items: seq<Item>): seq<string> {
    if items == [] then [] else [Text(items[0].weak, items[0].tag)] + Texts(items[1..])
  }

  ghost predicate Prints(items: seq<Item>, raw: string) {
    items != [] && (forall item :: item in items ==> ValidItem(item)) && Render(items) == raw
  }

  // ----- the parser as a function of the text that is left -----

  /** How many characters of `s` from its start satisfy `p`. */
  function Span(s: string, p: char -> bool): (n: nat)
    ensures n <= |s| && All(s[..n], p) && (n < |s| ==> !p(s[n]))
  {
    if s != "" && p(s[0]) then
      var n := Span(s[1..], p);
      assert s[..n + 1] == [s[0]] + s[1..][..n];
      n + 1
    else 0
  }

  function SkipOws(s: string): string {
    s[Span(s, IsOws)..]
  }

  /** One quoted tag at the start of `s`, and what follows it. */
  function ParseQuoted(s: string): Option<(string, string)> {
    if s == "" || s[0] != '"' then None
    else
      var n := Span(s[1..], IsTagChar);
      if n + 1 < |s| && s[n + 1] == '"' then Some((s[1..n + 1], s[n + 2..])) else None
  }

  /** One list element: the tag's text, and what follows its trailing white space. */
  function ParseItem(s: string): Option<(string, string)> {
    var start := SkipOws(s);
    var weak := "W/" <= start;
    match ParseQuoted(if weak then start[2..] else start)
    case None => None
    case Some((tag, rest)) => Some((Text(weak, tag), SkipOws(rest)))
  }

  lemma ParseItemShrinks(s: string)
    ensures ParseItem(s).Some? ==> |ParseItem(s).value.1| < |s|
  {
  }

  function ParseList(s: string): Option<seq<string>>
    decreases |s|
  {
    if s == "" then None
    else match ParseItem(s)
      case None => None
      case Some((text, rest)) =>
        ParseItemShrinks(s);
        if rest == "" then Some([text])
        else if rest[0] != ',' then None
        else Prepend([text], ParseList(rest[1..]))
  }

  function Prepend(texts: seq<string>, rest: Option<seq<string>>): Option<seq<string>> {
    if rest.None? then None else Some(texts + rest.value)
  }

  // ----- parsing undoes printing -----

  lemma {:induction false} SpanOf(s: string, tail: string, p: char -> bool)
    requires All(s, p) && (tail == "" || !p(tail[0]))
    ensures Span(s + tail, p) == |s|
  {
    if s == "" {
      assert s + tail == tail;
    } else {
      assert (s + tail)[1..] == s[1..] + tail;
      SpanOf(s[1..], tail, p);
    }
  }

  lemma SkipOwsOf(ows: string, tail: string)
    requires All(ows, IsOws) && (tail == "" || !IsOws(tail[0]))
    ensures SkipOws(ows + tail) == tail
  {
    SpanOf(ows, tail, IsOws);
  }

  lemma QuotedParses(tag: string, tail: string)
    requires All(tag, IsTagChar)
    ensures ParseQuoted(Quoted(tag) + tail) == Some((tag, tail))
  {
    var s := Quoted(tag) + tail;
    assert s[1..] == tag + ("\"" + tail);
    SpanOf(tag, "\"" + tail, IsTagChar);
    assert s[1..|tag| + 1] == tag && s[|tag| + 2..] == tail;
  }

  /** The weakness prefix of a printed tag is found when it is there, and only then. */
  lemma PrefixIsFound(weak: bool, tag: string, rest: string)
    ensures var start := Text(weak, tag) + rest;
            && start != "" && !IsOws(start[0]) && !IsSpace(start[0])
            && ("W/" <= start <==> weak)
            && (if weak then start[2..] else start) == Quoted(tag) + rest
  {
    var start := Text(weak, tag) + rest;
    if weak {
      assert start == "W/" + (Quoted(tag) + rest);
    } else {
      assert start == Quoted(tag) + rest;
      assert start[0] == '"';
    }
  }

  lemma ItemParses(item: Item, tail: string)
    requires ValidItem(item) && (tail == "" || tail[0] == ',')
    ensures ParseItem(Print(item) + tail) == Some((Text(item.weak, item.tag), tail))
  {
    hide Text, Quoted, ParseQuoted, SkipOws;
    var rest := item.after + tail;
    var start := Text(item.weak, item.tag) + rest;
    assert Print(item) + tail == item.before + start;
    PrefixIsFound(item.weak, item.tag, rest);
    SkipOwsOf(item.before, start);
    SkipOwsOf(item.after, tail);
    QuotedParses(item.tag, rest);
  }

  lemma {:induction false} PrintedListParses(items: seq<Item>, raw: string)
    requires Prints(items, raw)
    ensures ParseList(raw) == Some(Texts(items))
  {
    hide Text, ParseItem;
    var tail := if |items| == 1 then "" else "," + Render(items[1..]);
    assert raw == Print(items[0]) + tail;
    ItemParses(items[0], tail);
    PrintIsNotEmpty(items[0]);
    if |items| > 1 {
      PrintedListParses(items[1..], Render(items[1..]));
      assert tail[1..] == Render(items[1..]);
    } else {
      assert Texts(items) == [Text(items[0].weak, items[0].tag)];
    }
  }

  lemma PrintIsNotEmpty(item: Item)
    ensures |Print(item)| >= 2
  {
  }

  // ----- and only prints parse -----

  lemma ParsedQuotedIsPrinted(s: string)
    requires ParseQuoted(s).Some?
    ensures var (tag, rest) := ParseQuoted(s).value;
            All(tag, IsTagChar) && s == Quoted(tag) + rest
  {
    var n := Span(s[1..], IsTagChar);
    assert s[1..][..n] == s[1..n + 1];
  }

  lemma SkippedOws(s: string) returns (ows: string)
    ensures All(ows, IsOws) && s == ows + SkipOws(s)
  {
    ows := s[..Span(s, IsOws)];
  }

  lemma ParsedItemIsPrinted(s: string) returns (item: Item)
    requires ParseItem(s).Some?
    ensures ValidItem(item) && s == Print(item) + ParseItem(s).value.1
    ensures ParseItem(s).value.0 == Text(item.weak, item.tag)
  {
    hide ParseQuoted, SkipOws, Quoted;
    var before := SkippedOws(s);
    var start := SkipOws(s);
    var weak := "W/" <= start;
    var quoted := if weak then start[2..] else start;
    ParsedQuotedIsPrinted(quoted);
    var (tag, rest) := ParseQuoted(quoted).value;
    var after := SkippedOws(rest);
    item := Item(before, weak, tag, after);
    var prefix := if weak then "W/" else "";
    assert start == prefix + quoted;
    Regroup(before, prefix, Quoted(tag), after, SkipOws(rest));
  }

  lemma Regroup(a: string, b: string, c: string, d: string, e: string)
    ensures a + (b + (c + (d + e))) == a + (b + c) + d + e
  {
  }

  lemma {:induction false} ParsedListIsPrinted(raw: string) returns (items: seq<Item>)
    requires ParseList(raw).Some?
    ensures Prints(items, raw) && ParseList(raw).value == Texts(items)
    decreases |raw|
  {
    hide Text, Print, ParseItem;
    var item := ParsedItemIsPrinted(raw);
    var rest := ParseItem(raw).value.1;
    ParseItemShrinks(raw);
    if rest == "" {
      items := [item];
      assert Print(item) + "" == Print(item);
      assert Texts(items) == [Text(item.weak, item.tag)] + [];
    } else {
      var others := ParsedListIsPrinted(rest[1..]);
      items := [item] + others;
      assert items[1..] == others;
      assert rest == "," + rest[1..];
      assert raw == Print(item) + ("," + rest[1..]);
    }
  }

  /** The parser accepts exactly the non-empty lists of valid tags joined by commas with optional spaces and
      tabs, and returns their texts in order. */
  lemma ParserInvertsPrinting(raw: string, texts: seq<string>)
    ensures ParseList(raw) == Some(texts) <==> exists items :: Prints(items, raw) && Texts(items) == texts
  {
    if ParseList(raw) == Some(texts) {
      var items := ParsedListIsPrinted(raw);
    }
    if items :| Prints(items, raw) && Texts(items) == texts {
      PrintedListParses(items, raw);
    }
  }

  lemma ParsesIffPrinted(raw: string)
    ensures ParseList(raw).Some? <==> exists items :: Prints(items, raw)
    ensures ParseList(raw).Some? ==> exists items :: Prints(items, raw) && Texts(items) == ParseList(raw).value
  {
    if ParseList(raw).Some? {
      ParserInvertsPrinting(raw, ParseList(raw).value);
    }
    if items :| Prints(items, raw) {
      ParserInvertsPrinting(raw, Texts(items));
    }
  }

  // ----- empty list elements -----

  /** A list element as section 5.6.1 lets a sender write one: a tag, or nothing but optional white space. */
  datatype Element = Blank(ows: string) | Tagged(item: Item)

  predicate ValidElement(e: Element) {
    match e
    case Blank(ows) => All(ows, IsOws)
    case Tagged(item) => ValidItem(item)
  }

  function RenderElement(e: Element): string {
    match e
    case Blank(ows) => ows
    case Tagged(item) => Print(item)
  }

  function RenderElements(es: seq<Element>): string {
    if es == [] then ""
    else RenderElement(es[0]) + if |es| == 1 then "" else "," + RenderElements(es[1..])
  }

  /** What a recipient that ignores empty elements reads. */
  function TagsIn(es: seq<Element>): seq<Item> {
    if es == [] then []
    else (if es[0].Tagged? then [es[0].item] else []) + TagsIn(es[1..])
  }

  lemma BlankFails(ows: string, tail: string)
    requires All(ows, IsOws) && (tail == "" || tail[0] == ',')
    ensures ParseList(ows + tail) == None
  {
    SkipOwsOf(ows, tail);
    assert ParseQuoted(tail) == None;
  }

  lemma ItemThenRest(item: Item, tail: string)
    requires ValidItem(item) && (tail == "" || tail[0] == ',')
    ensures ParseList(Print(item) + tail)
         == if tail == "" then Some([Text(item.weak, item.tag)])
            else Prepend([Text(item.weak, item.tag)], ParseList(tail[1..]))
  {
    hide Print, Text, ParseItem;
    ItemParses(item, tail);
    PrintIsNotEmpty(item);
  }

  predicate AllTagged(es: seq<Element>) {
    forall e :: e in es ==> e.Tagged?
  }

  /** The parser reads a list of elements exactly as a recipient that ignores empty elements would, unless
      there is one to ignore: then it rejects the whole field. */
  lemma {:induction false} ElementsParse(es: seq<Element>)
    requires es != [] && forall e :: e in es ==> ValidElement(e)
    ensures ParseList(RenderElements(es)) == if AllTagged(es) then Some(Texts(TagsIn(es))) else None
  {
    hide Print, Text, ParseItem, ParseList;
    var tail := if |es| == 1 then "" else "," + RenderElements(es[1..]);
    assert RenderElements(es) == RenderElement(es[0]) + tail;
    assert es == [es[0]] + es[1..];
    assert es[0] in es;
    match es[0]
    case Blank(ows) => BlankFails(ows, tail);
    case Tagged(item) =>
      ItemThenRest(item, tail);
      assert TagsIn(es) == [item] + TagsIn(es[1..]);
      assert Texts(TagsIn(es)) == [Text(item.weak, item.tag)] + Texts(TagsIn(es[1..]));
      assert AllTagged(es) <==> AllTagged(es[1..]);
      if |es| > 1 {
        ElementsParse(es[1..]);
        assert tail[1..] == RenderElements(es[1..]);
      } else {
        assert TagsIn(es[1..]) == [] && Texts([]) == [];
        assert Texts(TagsIn(es)) == [Text(item.weak, item.tag)];
      }
  }

  /** The requirement of section 5.6.1 that recipients ignore empty elements is met if and only if there is
      none. */
  lemma EmptyElementsAreRejected(es: seq<Element>)
    requires es != [] && forall e :: e in es ==> ValidElement(e)
    ensures ParseList(RenderElements(es)).Some? <==> AllTagged(es)
    ensures ParseList(RenderElements(es)) == Some(Texts(TagsIn(es))) <==> AllTagged(es)
  {
    ElementsParse(es);
  }

  /** `"a",,"b"` as elements. */
  const EMPTY_BETWEEN: seq<Element> :=
    [Tagged(Item("", false, "a", "")), Blank(""), Tagged(Item("", false, "b", ""))]

  lemma EmptyBetweenIs()
    ensures RenderElements(EMPTY_BETWEEN) == "\"a\",,\"b\""
    ensures (forall e :: e in EMPTY_BETWEEN ==> ValidElement(e)) && !AllTagged(EMPTY_BETWEEN)
  {
    var es := EMPTY_BETWEEN;
    assert es[1..][1..] == [es[2]];
    assert RenderElements([es[2]]) == "\"b\"";
    assert RenderElements(es[1..]) == ",\"b\"";
    assert es[1] in es;
  }

  lemma NoListNoMatch(raw: string, etag: string)
    requires ParseList(raw).None? && raw != "" && raw != "*" && !IsSpace(raw[0]) && !IsSpace(raw[|raw| - 1])
    ensures !Matches(Some(raw), etag)
  {
    hide ParseList, WeakEntityTag, IsSpace;
  }

  /** One field that must match, by both tags, and does not. */
  lemma EmptyElementHidesTheTags()
    ensures var raw := "\"a\",,\"b\"";
            && (forall e :: e in EMPTY_BETWEEN ==> ValidElement(e)) && RenderElements(EMPTY_BETWEEN) == raw
            && ParseList(raw) == None && !Matches(Some(raw), "\"a\"") && !Matches(Some(raw), "\"b\"")
  {
    hide RenderElements, ParseList, Matches, ValidElement, AllTagged;
    var raw := "\"a\",,\"b\"";
    EmptyBetweenIs();
    ElementsParse(EMPTY_BETWEEN);
    NoListNoMatch(raw, "\"a\"");
    NoListNoMatch(raw, "\"b\"");
  }

  // ----- weak comparison -----

  /** `weakEntityTag`: the quoted part of a single tag, weak or not. */
  function WeakEntityTag(value: string): Option<string> {
    var t := Trim(value);
    var quoted := if "W/" <= t then t[2..] else t;
    if |quoted| >= 2 && quoted[0] == '"' && quoted[|quoted| - 1] == '"' && All(quoted[1..|quoted| - 1], IsEtagc)
    then Some(quoted) else None
  }

  lemma TextHasWeakTag(weak: bool, tag: string)
    ensures WeakEntityTag(Text(weak, tag)) == if All(tag, IsEtagc) then Some(Quoted(tag)) else None
  {
    var t := Text(weak, tag);
    PrefixIsFound(weak, tag, "");
    assert t + "" == t && Quoted(tag) + "" == Quoted(tag);
    assert t[|t| - 1] == '"';
    assert Trim(t) == t;
    assert Quoted(tag)[1..|Quoted(tag)| - 1] == tag;
  }

  function SomeMatches(texts: seq<string>, current: string): bool {
    exists i :: 0 <= i < |texts| && WeakEntityTag(texts[i]) == Some(current)
  }

  /** `matchesIfNoneMatch`. */
  function Matches(raw: Option<string>, etag: string): bool {
    if raw.Some? && Trim(raw.value) == "*" then true
    else
      var current := WeakEntityTag(etag);
      raw.Some? && current.Some? && ParseList(raw.value).Some? && SomeMatches(ParseList(raw.value).value, current.value)
  }

  lemma {:induction false} TextsAt(items: seq<Item>)
    ensures |Texts(items)| == |items|
    ensures forall i :: 0 <= i < |items| ==> Texts(items)[i] == Text(items[i].weak, items[i].tag)
  {
    if items == [] {
    } else {
      TextsAt(items[1..]);
    }
  }

  lemma {:induction false} TrimmedStart(s: string) returns (space: string)
    ensures All(space, IsSpace) && s == space + TrimStart(s)
    ensures TrimStart(s) == "" || !IsSpace(TrimStart(s)[0])
  {
    if s == "" || !IsSpace(s[0]) {
      space := "";
    } else {
      var rest := TrimmedStart(s[1..]);
      space := [s[0]] + rest;
    }
  }

  lemma {:induction false} TrimmedEnd(s: string) returns (space: string)
    ensures All(space, IsSpace) && s == TrimEnd(s) + space
    ensures TrimEnd(s) == "" || !IsSpace(TrimEnd(s)[|TrimEnd(s)| - 1])
  {
    if s == "" || !IsSpace(s[|s| - 1]) {
      space := "";
    } else {
      var rest := TrimmedEnd(s[..|s| - 1]);
      space := rest + [s[|s| - 1]];
    }
  }

  lemma {:induction false} TrimStartOf(space: string, s: string)
    requires All(space, IsSpace) && s != "" && !IsSpace(s[0])
    ensures TrimStart(space + s) == s
  {
    if space == "" {
      assert space + s == s;
    } else {
      assert (space + s)[1..] == space[1..] + s;
      TrimStartOf(space[1..], s);
    }
  }

  lemma {:induction false} TrimEndOf(s: string, space: string)
    requires All(space, IsSpace) && s != "" && !IsSpace(s[|s| - 1])
    ensures TrimEnd(s + space) == s
  {
    if space == "" {
      assert s + space == s;
    } else {
      assert (s + space)[..|s + space| - 1] == s + space[..|space| - 1];
      TrimEndOf(s, space[..|space| - 1]);
    }
  }

  /** `value` is a tag of section 8.8.3 with the given opaque part, give or take white space around it. */
  ghost predicate IsTag(value: string, tag: string) {
    && All(tag, IsEtagc)
    && exists before, weak, after :: SpacedTag(value, before, weak, tag, after)
  }

  ghost predicate SpacedTag(value: string, before: string, weak: bool, tag: string, after: string) {
    All(before, IsSpace) && All(after, IsSpace) && value == before + Text(weak, tag) + after
  }

  lemma TrimOf(before: string, t: string, after: string)
    requires All(before, IsSpace) && All(after, IsSpace)
    requires t != "" && !IsSpace(t[0]) && !IsSpace(t[|t| - 1])
    ensures Trim(before + t + after) == t && Trim(t) == t
  {
    assert before + t + after == before + (t + after);
    assert (t + after)[0] == t[0];
    TrimStartOf(before, t + after);
    TrimEndOf(t, after);
  }

  lemma SpacedTagIsFound(value: string, before: string, weak: bool, tag: string, after: string)
    requires All(tag, IsEtagc) && SpacedTag(value, before, weak, tag, after)
    ensures WeakEntityTag(value) == Some(Quoted(tag))
  {
    hide Trim, IsSpace;
    var t := Text(weak, tag);
    TextEnds(weak, tag);
    TrimOf(before, t, after);
    TextHasWeakTag(weak, tag);
    SameTrimSameTag(value, t);
  }

  lemma TextEnds(weak: bool, tag: string)
    ensures var t := Text(weak, tag);
            t != "" && !IsSpace(t[0]) && !IsSpace(t[|t| - 1])
  {
    PrefixIsFound(weak, tag, "");
    assert Text(weak, tag) + "" == Text(weak, tag);
    assert Text(weak, tag)[|Text(weak, tag)| - 1] == '"';
  }

  lemma SameTrimSameTag(a: string, b: string)
    requires Trim(a) == Trim(b)
    ensures WeakEntityTag(a) == WeakEntityTag(b)
  {
    hide Trim;
  }

  /** Every text has an opaque tag exactly when it is a single well-formed tag. */
  lemma WeakTagIsTheTag(value: string, tag: string)
    ensures WeakEntityTag(value) == Some(Quoted(tag)) <==> IsTag(value, tag)
  {
    if WeakEntityTag(value) == Some(Quoted(tag)) {
      var t := Trim(value);
      var before := TrimmedStart(value);
      var after := TrimmedEnd(TrimStart(value));
      var weak := "W/" <= t;
      var quoted := if weak then t[2..] else t;
      assert quoted == Quoted(tag);
      assert quoted[1..|quoted| - 1] == tag;
      assert t == Text(weak, tag);
      assert value == before + (t + after);
      assert SpacedTag(value, before, weak, tag, after);
    }
    if IsTag(value, tag) {
      var before, weak, after :| SpacedTag(value, before, weak, tag, after);
      SpacedTagIsFound(value, before, weak, tag, after);
    }
  }

  /** The current tag and a listed one weakly match: the current one is well formed and both have one opaque
      part. */
  ghost predicate ListsTag(items: seq<Item>, raw: string, i: nat, etag: string) {
    i < |items| && Prints(items, raw) && IsTag(etag, items[i].tag)
  }

  /** The condition of section 13.1.2 under the weak comparison of section 8.8.3.2, for any field, absent or
      not, and any current tag, well formed or not: the field is `*`, or it is a list one of whose tags has
      the current representation's opaque tag, whether either is weak. */
  lemma MatchesIsWeakComparison(raw: Option<string>, etag: string)
    ensures Matches(raw, etag)
       <==> raw.Some? && (Trim(raw.value) == "*" || exists items, i :: ListsTag(items, raw.value, i, etag))
  {
    if raw.Some? && Trim(raw.value) != "*" {
      if Matches(raw, etag) {
        var items, i := MatchIsListed(raw.value, etag);
      }
      if items, i :| ListsTag(items, raw.value, i, etag) {
        ListedMatches(items, raw.value, i, etag);
      }
    }
  }

  lemma MatchIsListed(raw: string, etag: string) returns (items: seq<Item>, i: nat)
    requires Matches(Some(raw), etag) && Trim(raw) != "*"
    ensures ListsTag(items, raw, i, etag)
  {
    hide WeakEntityTag, Text, Quoted, Trim;
    items := ParsedListIsPrinted(raw);
    TextsAt(items);
    i :| 0 <= i < |Texts(items)| && WeakEntityTag(Texts(items)[i]) == WeakEntityTag(etag);
    TextHasWeakTag(items[i].weak, items[i].tag);
    WeakTagIsTheTag(etag, items[i].tag);
  }

  lemma ListedMatches(items: seq<Item>, raw: string, i: nat, etag: string)
    requires ListsTag(items, raw, i, etag)
    ensures Matches(Some(raw), etag)
  {
    hide WeakEntityTag, Text, Quoted, Trim;
    PrintedListParses(items, raw);
    TextsAt(items);
    TextHasWeakTag(items[i].weak, items[i].tag);
    WeakTagIsTheTag(etag, items[i].tag);
    assert WeakEntityTag(Texts(items)[i]) == WeakEntityTag(etag);
  }

  // ----- the parser as the code runs it -----

  lemma PrependNothing(rest: Option<seq<string>>)
    ensures Prepend([], rest) == rest
  {
    if rest.Some? {
      assert [] + rest.value == rest.value;
    }
  }

  lemma PrependOneMore(texts: seq<string>, text: string, rest: Option<seq<string>>)
    ensures Prepend(texts, Prepend([text], rest)) == Prepend(texts + [text], rest)
  {
    if rest.Some? {
      assert texts + ([text] + rest.value) == texts + [text] + rest.value;
    }
  }

  /** The inner loop over white space. */
  method SkipFrom(raw: string, from: nat) returns (index: nat)
    requires from <= |raw|
    ensures from <= index <= |raw| && raw[index..] == SkipOws(raw[from..])
  {
    index := from;
    while index < |raw| && IsOws(raw[index])
      invariant from <= index <= |raw|
      invariant Span(raw[from..], IsOws) == index - from + Span(raw[index..], IsOws)
    {
      assert raw[index..][1..] == raw[index + 1..];
      index := index + 1;
    }
    assert raw[from..][index - from..] == raw[index..];
  }

  /** The loop between the quotes: where it ends, or `None` at a character no tag may hold. */
  method ScanTag(raw: string, from: nat) returns (end: Option<nat>)
    requires from <= |raw|
    ensures var stop := from + Span(raw[from..], IsTagChar);
            end == if stop < |raw| && raw[stop] != '"' then None else Some(stop)
  {
    var i := from;
    while i < |raw| && raw[i] != '"'
      invariant from <= i <= |raw|
      invariant from + Span(raw[from..], IsTagChar) == i + Span(raw[i..], IsTagChar)
    {
      assert raw[i..][1..] == raw[i + 1..];
      if !IsTagChar(raw[i]) {
        return None;
      }
      i := i + 1;
    }
    return Some(i);
  }

  /** One quoted tag. */
  method ReadQuoted(raw: string, from: nat) returns (index: Option<nat>)
    requires from <= |raw|
    ensures index.None? <==> ParseQuoted(raw[from..]).None?
    ensures index.Some? ==>
              && from < index.value <= |raw|
              && ParseQuoted(raw[from..]).value.1 == raw[index.value..]
              && Quoted(ParseQuoted(raw[from..]).value.0) == raw[from..index.value]
  {
    if from >= |raw| || raw[from] != '"' {
      return None;
    }
    assert raw[from..][1..] == raw[from + 1..];
    var end := ScanTag(raw, from + 1);
    if end.None? || end.value >= |raw| {
      return None;
    }
    var i := end.value;
    assert raw[from..][1..i - from] == raw[from + 1..i];
    assert raw[from..][i - from + 1..] == raw[i + 1..];
    assert raw[from..i + 1] == "\"" + raw[from + 1..i] + "\"";
    return Some(i + 1);
  }

  /** `entityTagList`. */
  method EntityTagList(raw: string) returns (result: Option<seq<string>>)
    ensures result == ParseList(raw)
    ensures result.Some? ==> exists items :: Prints(items, raw) && Texts(items) == result.value
    ensures (exists items :: Prints(items, raw)) ==> result.Some?
  {
    ParsesIffPrinted(raw);
    result := ReadList(raw);
  }

  method ReadList(raw: string) returns (result: Option<seq<string>>)
    ensures result == ParseList(raw)
  {
    hide SkipOws, ParseQuoted, Quoted;
    var tags: seq<string> := [];
    var index := 0;
    assert raw[0..] == raw;
    PrependNothing(ParseList(raw));
    while index < |raw|
      invariant 0 <= index <= |raw| && ParseList(raw) == Prepend(tags, ParseList(raw[index..]))
    {
      var start := SkipFrom(raw, index);
      var weak := start + 2 <= |raw| && raw[start..start + 2] == "W/";
      assert weak <==> "W/" <= raw[start..];
      var quoted := if weak then start + 2 else start;
      var end := ReadQuoted(raw, quoted);
      if end.None? {
        return None;
      }
      assert raw[start..end.value] == Text(weak, ParseQuoted(raw[quoted..]).value.0);
      tags := tags + [raw[start..end.value]];
      index := SkipFrom(raw, end.value);
      if index == |raw| {
        return Some(tags);
      }
      if raw[index] != ',' {
        return None;
      }
      PrependOneMore(tags[..|tags| - 1], tags[|tags| - 1], ParseList(raw[index + 1..]));
      assert raw[index..][1..] == raw[index + 1..];
      index := index + 1;
    }
    return None;
  }
}
