/**
 * The related-news section of an alert (bot/alerts.py `_format_event_related_context`,
 * `_format_market_heartbeat_related_context`, and the entity loop of `_build_event_alert_payload`).
 *
 * Titles, sources and addresses arrive cleaned and checked: an item is its link text, empty when
 * the source drops it, and its accepted address.
 */
module Message {
  import opened Prelude
  import opened Utf16

  datatype Item = Item(text: string, url: Option<string>)

  const BULLET := "\U{2022} "

  function Join(a: string, b: string): string {
    if a == "" then b else a + "\n" + b
  }

  /** The items shown: of the first three, those with a text. */
  function Kept(items: seq<Item>): (r: seq<Item>)
    ensures forall i :: i in r ==> i.text != ""
  {
    if items == [] then []
    else Kept(items[..|items| - 1]) + if items[|items| - 1].text == "" then [] else [items[|items| - 1]]
  }

  function Shown(items: seq<Item>): seq<Item> {
    Kept(if |items| <= 3 then items else items[..3])
  }

  function Line(i: Item): (s: string)
    ensures s != ""
  {
    BULLET + i.text
  }

  function Plain(kept: seq<Item>): (s: string)
    ensures s == "" <==> kept == []
  {
    if kept == [] then "" else Join(Plain(kept[..|kept| - 1]), Line(kept[|kept| - 1]))
  }

  function Links(kept: seq<Item>): seq<Item> {
    if kept == [] then []
    else Links(kept[..|kept| - 1]) + if kept[|kept| - 1].url.None? then [] else [kept[|kept| - 1]]
  }

  // ---------- HTML

  function EscapeChar(c: char): string {
    if c == '&' then "&amp;" else if c == '<' then "&lt;" else if c == '>' then "&gt;"
    else if c == '"' then "&quot;" else if c == '\'' then "&#x27;" else [c]
  }

  function Escape(s: string): string {
    if s == "" then "" else EscapeChar(s[0]) + Escape(s[1..])
  }

  function Tag(inside: string): string {
    "<" + inside + ">"
  }

  function HtmlLine(i: Item): (s: string)
    ensures s != ""
  {
    if i.url.Some? then BULLET + (Tag("a href=\"" + Escape(i.url.value) + "\"") + (Escape(i.text) + Tag("/a")))
    else BULLET + Escape(i.text)
  }

  function Html(kept: seq<Item>): (s: string)
    ensures s == "" <==> kept == []
  {
    if kept == [] then "" else Join(Html(kept[..|kept| - 1]), HtmlLine(kept[|kept| - 1]))
  }

  /** What follows the first `>`. */
  function AfterTag(h: string): (r: string)
    ensures |r| <= |h|
  {
    if h == "" then "" else if h[0] == '>' then h[1..] else AfterTag(h[1..])
  }

  /** What a reader sees: tags gone, character references decoded from left to right. */
  function Visible(h: string): string
    decreases |h|
  {
    if h == "" then ""
    else if h[0] == '<' then Visible(AfterTag(h[1..]))
    else if h[0] != '&' then [h[0]] + Visible(h[1..])
    else if "&amp;" <= h then "&" + Visible(h[5..])
    else if "&lt;" <= h then "<" + Visible(h[4..])
    else if "&gt;" <= h then ">" + Visible(h[4..])
    else if "&quot;" <= h then "\"" + Visible(h[6..])
    else if "&#x27;" <= h then "'" + Visible(h[6..])
    else "&" + Visible(h[1..])
  }

  /** `h` shows as `t`, and leaves what follows alone. */
  ghost predicate Shows(h: string, t: string) {
    forall rest :: Visible(h + rest) == t + Visible(rest)
  }

  lemma ShowsBoth(a: string, s: string, b: string, t: string)
    requires Shows(a, s) && Shows(b, t)
    ensures Shows(a + b, s + t)
  {
    hide Visible;
    forall rest ensures Visible((a + b) + rest) == (s + t) + Visible(rest) {
      assert (a + b) + rest == a + (b + rest);
      assert (s + t) + Visible(rest) == s + (t + Visible(rest));
    }
  }

  lemma ShowsWhole(h: string, t: string)
    requires Shows(h, t)
    ensures Visible(h) == t
  {
    assert h + "" == h && t + Visible("") == t;
  }

  lemma CharShows(c: char)
    ensures Shows(EscapeChar(c), [c])
  {
    var e := EscapeChar(c);
    forall rest ensures Visible(e + rest) == [c] + Visible(rest) {
      var h := e + rest;
      assert h[..|e|] == e && h[|e|..] == rest;
      if c == '<' || c == '>' || c == '"' || c == '\'' {
        assert h[0] == '&' && h[1] == e[1];
      }
    }
  }

  lemma EmptyShows()
    ensures Shows("", "")
  {
    forall rest ensures Visible("" + rest) == "" + Visible(rest) {
      assert "" + rest == rest && "" + Visible(rest) == Visible(rest);
    }
  }

  /** Escaped text shows as itself. */
  lemma {:induction false} EscapedShows(s: string)
    ensures Shows(Escape(s), s)
  {
    if s == "" {
      EmptyShows();
    } else {
      hide Shows;
      CharShows(s[0]);
      EscapedShows(s[1..]);
      ShowsBoth(EscapeChar(s[0]), [s[0]], Escape(s[1..]), s[1..]);
      assert s == [s[0]] + s[1..];
    }
  }

  predicate Bare(s: string) {
    '<' !in s && '&' !in s
  }

  lemma {:induction false} BareShows(s: string)
    requires Bare(s)
    ensures Shows(s, s)
  {
    if s == "" {
      EmptyShows();
    } else {
      forall rest ensures Visible([s[0]] + rest) == [s[0]] + Visible(rest) {
        assert ([s[0]] + rest)[1..] == rest;
      }
      hide Shows;
      BareShows(s[1..]);
      ShowsBoth([s[0]], [s[0]], s[1..], s[1..]);
      assert s == [s[0]] + s[1..];
    }
  }

  lemma {:induction false} NoAngles(s: string)
    ensures '<' !in Escape(s) && '>' !in Escape(s) && '"' !in Escape(s)
  {
    if s != "" {
      NoAngles(s[1..]);
    }
  }

  lemma {:induction false} AfterTagSkips(s: string, rest: string)
    requires '>' !in s
    ensures AfterTag(s + (">" + rest)) == rest
  {
    if s == "" {
      assert "" + (">" + rest) == ">" + rest;
    } else {
      assert (s + (">" + rest))[1..] == s[1..] + (">" + rest);
      AfterTagSkips(s[1..], rest);
    }
  }

  /** A tag shows nothing, whatever escaped text it carries. */
  lemma TagShows(inside: string)
    requires '>' !in inside
    ensures Shows(Tag(inside), "")
  {
    forall rest ensures Visible(Tag(inside) + rest) == "" + Visible(rest) {
      assert (Tag(inside) + rest)[1..] == inside + (">" + rest);
      AfterTagSkips(inside, rest);
      assert "" + Visible(rest) == Visible(rest);
    }
  }

  lemma LineShows(i: Item)
    ensures Shows(HtmlLine(i), Line(i))
  {
    BareShows(BULLET);
    EscapedShows(i.text);
    hide Shows, Visible, Escape, Tag;
    if i.url.None? {
      ShowsBoth(BULLET, BULLET, Escape(i.text), i.text);
    } else {
      var opening := "a href=\"" + Escape(i.url.value) + "\"";
      NoAngles(i.url.value);
      TagShows(opening);
      TagShows("/a");
      ShowsBoth(Escape(i.text), i.text, Tag("/a"), "");
      ShowsBoth(Tag(opening), "", Escape(i.text) + Tag("/a"), i.text + "");
      ShowsBoth(BULLET, BULLET, Tag(opening) + (Escape(i.text) + Tag("/a")), "" + (i.text + ""));
      assert "" + (i.text + "") == i.text;
    }
  }

  lemma JoinShows(a: string, s: string, b: string, t: string)
    requires Shows(a, s) && Shows(b, t) && (a == "" <==> s == "")
    ensures Shows(Join(a, b), Join(s, t))
  {
    BareShows("\n");
    hide Shows;
    ShowsBoth(a, s, "\n", "\n");
    ShowsBoth(a + "\n", s + "\n", b, t);
  }

  /** The HTML section shows the plain section. */
  lemma {:induction false} SectionShows(kept: seq<Item>)
    ensures Shows(Html(kept), Plain(kept))
  {
    if kept == [] {
      EmptyShows();
    } else {
      hide Shows, HtmlLine, Line, Join;
      var init, last := kept[..|kept| - 1], kept[|kept| - 1];
      SectionShows(init);
      LineShows(last);
      JoinShows(Html(init), Plain(init), HtmlLine(last), Line(last));
    }
  }

  /** Both renderings of the section show the same text, for every news list; and a link leads where
      it should. */
  lemma SectionsAgree(items: seq<Item>, emptyText: string, url: string)
    ensures Visible(Html(Shown(items))) == Plain(Shown(items))
    ensures Visible(Escape(emptyText)) == emptyText
    ensures Visible(Escape(url)) == url && '"' !in Escape(url)
  {
    SectionShows(Shown(items));
    ShowsWhole(Html(Shown(items)), Plain(Shown(items)));
    EscapedShows(emptyText);
    ShowsWhole(Escape(emptyText), emptyText);
    EscapedShows(url);
    ShowsWhole(Escape(url), url);
    NoAngles(url);
  }

  /** An escaped address in quotes, and an escaped text. */
  predicate Reading(h: string, url: string) {
    Visible(h) == url && '"' !in h && '<' !in h && '>' !in h
  }

  lemma HtmlLineReads(i: Item) returns (h: string, t: string)
    ensures Reading(t, i.text) && (i.url.Some? ==> Reading(h, i.url.value))
    ensures HtmlLine(i) == if i.url.Some? then "\U{2022} <a href=\"" + h + "\">" + t + "</a>" else "\U{2022} " + t
  {
    h, t := Escape(if i.url.Some? then i.url.value else ""), Escape(i.text);
    EscapedReads(i.text);
    if i.url.Some? {
      EscapedReads(i.url.value);
      LinkForm(h, t);
    }
    hide Visible, Escape, Tag;
  }

  /** The HTML section line by line: a bullet and the text, inside a link to the item's own address if
      it has one. */
  lemma HtmlGrows(kept: seq<Item>, i: Item) returns (h: string, t: string)
    ensures Html([]) == ""
    ensures Reading(t, i.text) && (i.url.Some? ==> Reading(h, i.url.value))
    ensures Html(kept + [i]) == (if kept == [] then "" else Html(kept) + "\n")
              + if i.url.Some? then "\U{2022} <a href=\"" + h + "\">" + t + "</a>" else "\U{2022} " + t
  {
    hide Reading, HtmlLine;
    h, t := HtmlLineReads(i);
    assert (kept + [i])[..|kept|] == kept;
    assert Html(kept + [i]) == Join(Html(kept), HtmlLine(i));
    assert "" + HtmlLine(i) == HtmlLine(i);
  }

  lemma LinkForm(h: string, t: string)
    ensures BULLET + (Tag("a href=\"" + h + "\"") + (t + Tag("/a"))) == "\U{2022} <a href=\"" + h + "\">" + t + "</a>"
  {
    var open, close := "a href=\"", "\"";
    assert Tag(open + h + close) == ("<" + open) + h + (close + ">");
    assert BULLET + ("<" + open) == "\U{2022} <a href=\"" && close + ">" == "\">" && Tag("/a") == "</a>";
    Regroup(BULLET, "<" + open, h, close + ">", t, Tag("/a"));
  }

  lemma Regroup(a: string, b: string, h: string, d: string, t: string, f: string)
    ensures a + ((b + h + d) + (t + f)) == (a + b) + h + d + t + f
  {
    assert (b + h + d) + (t + f) == b + h + d + t + f;
  }

  lemma EscapedReads(s: string)
    ensures Reading(Escape(s), s)
  {
    EscapedShows(s);
    ShowsWhole(Escape(s), s);
    NoAngles(s);
  }

  /** Item `k`, if it has a text; and if it has an address as well. */
  function Titled(items: seq<Item>, k: nat): seq<Item> {
    if k < |items| && items[k].text != "" then [items[k]] else []
  }

  function Linked(items: seq<Item>, k: nat): seq<Item> {
    if k < |items| && items[k].text != "" && items[k].url.Some? then [items[k]] else []
  }

  lemma KeptNext(items: seq<Item>, k: nat)
    requires k < |items|
    ensures Kept(items[..k + 1]) == Kept(items[..k]) + Titled(items, k)
    ensures Links(Kept(items[..k + 1])) == Links(Kept(items[..k])) + Linked(items, k)
  {
    KeptSnoc(items, k);
    LinksSnoc(Kept(items[..k]), items[k]);
    hide Kept, Links;
  }

  lemma NothingBeyond(items: seq<Item>, k: nat)
    requires k >= |items|
    ensures Titled(items, k) == [] && Linked(items, k) == []
  {
  }

  function Cut(items: seq<Item>, n: nat): seq<Item> {
    if |items| <= n then items else items[..n]
  }

  /** One place further, whether or not there is an item. */
  lemma CutNext(items: seq<Item>, n: nat)
    ensures Kept(Cut(items, n + 1)) == Kept(Cut(items, n)) + Titled(items, n)
    ensures Links(Kept(Cut(items, n + 1))) == Links(Kept(Cut(items, n))) + Linked(items, n)
  {
    CutIs(items, n);
    CutIs(items, n + 1);
    hide Kept, Links, Titled, Linked, Cut;
    if n < |items| {
      KeptNext(items, n);
    } else {
      NothingBeyond(items, n);
      assert Kept(items) + [] == Kept(items) && Links(Kept(items)) + [] == Links(Kept(items));
    }
  }

  lemma CutIs(items: seq<Item>, n: nat)
    ensures n <= |items| ==> Cut(items, n) == items[..n]
    ensures n >= |items| ==> Cut(items, n) == items
  {
  }

  /** What is shown: of the first three items those with a text, in order; and of these what is linked. */
  lemma ShownExactly(items: seq<Item>)
    ensures Shown(items) == Titled(items, 0) + Titled(items, 1) + Titled(items, 2)
    ensures Links(Shown(items)) == Linked(items, 0) + Linked(items, 1) + Linked(items, 2)
  {
    assert Cut(items, 0) == [] && Kept([]) == [] && Links([]) == [];
    assert Shown(items) == Kept(Cut(items, 3));
    hide Kept, Links, Shown, Titled, Linked, Cut;
    CutNext(items, 0);
    CutNext(items, 1);
    CutNext(items, 2);
    assert [] + Titled(items, 0) == Titled(items, 0) && [] + Linked(items, 0) == Linked(items, 0);
  }

  // ---------- the loops

  /** The links of `kept`, where the running cursor puts them. */
  function LinkEntities(kept: seq<Item>): (es: seq<Entity>)
    ensures |es| == |Links(kept)|
  {
    if kept == [] then []
    else
      var init, last := kept[..|kept| - 1], kept[|kept| - 1];
      LinkEntities(init) + if last.url.None? then [] else [LinkAt(init, last)]
  }

  lemma KeptSnoc(items: seq<Item>, k: nat)
    requires k < |items|
    ensures Kept(items[..k + 1]) == if items[k].text == "" then Kept(items[..k]) else Kept(items[..k]) + [items[k]]
  {
    assert items[..k + 1][..k] == items[..k];
  }

  /** One more line in the section, and where the cursor then stands. */
  lemma PlainSnoc(kept: seq<Item>, i: Item)
    ensures Plain(kept + [i]) == Join(Plain(kept), Line(i))
    ensures Length(Plain(kept + [i])) == Length(Plain(kept)) + (if kept == [] then 0 else 1) + Length(Line(i))
  {
    hide Length, Line, Join;
    assert (kept + [i])[..|kept|] == kept;
    JoinLength(Plain(kept), Line(i));
  }

  lemma HtmlSnoc(kept: seq<Item>, i: Item)
    ensures Html(kept + [i]) == Join(Html(kept), HtmlLine(i))
  {
  }

  function LinkAt(kept: seq<Item>, i: Item): Entity {
    Entity(Length(Plain(kept)) + (if kept == [] then 0 else 1) + Length(BULLET), Length(i.text), i.url)
  }

  lemma LinksSnoc(kept: seq<Item>, i: Item)
    ensures LinkEntities(kept + [i]) == if i.url.None? then LinkEntities(kept)
        else LinkEntities(kept) + [LinkAt(kept, i)]
    ensures Links(kept + [i]) == if i.url.None? then Links(kept) else Links(kept) + [i]
  {
  }

  method FormatEvent(items: seq<Item>, emptyText: string)
    returns (plain: string, entities: seq<Entity>, html: Option<string>)
    ensures Shown(items) == [] ==>
        plain == emptyText && entities == [] && html == if emptyText == "" then None else Some(Escape(emptyText))
    ensures Shown(items) != [] ==> plain == Plain(Shown(items)) && html == Some(Html(Shown(items)))
    ensures entities == LinkEntities(Shown(items))
  {
    hide Plain, Html, LinkEntities, Links, Kept, Line, HtmlLine, Length, Join, Escape;
    var shown := if |items| <= 3 then items else items[..3];
    var cursor := 0;
    var lines, htmlLines := "", "";
    entities := [];
    NothingShown();
    ghost var kept: seq<Item> := [];
    assert shown[..0] == [];
    for k := 0 to |shown|
      invariant kept == Kept(shown[..k])
      invariant lines == Plain(kept) && htmlLines == Html(kept)
      invariant cursor == Length(lines) && entities == LinkEntities(kept)
    {
      var i := shown[k];
      KeptSnoc(shown, k);
      if i.text != "" {
        PlainSnoc(kept, i);
        HtmlSnoc(kept, i);
        LinksSnoc(kept, i);
        kept := kept + [i];
        if lines != "" {
          cursor := cursor + 1;
        }
        if i.url.Some? {
          entities := entities + [Entity(cursor + Length(BULLET), Length(i.text), i.url)];
        }
        lines := Join(lines, Line(i));
        htmlLines := Join(htmlLines, HtmlLine(i));
        cursor := cursor + Length(Line(i));
      }
    }
    assert shown[..|shown|] == shown;
    if lines == "" {
      return emptyText, [], if emptyText == "" then None else Some(Escape(emptyText));
    }
    return lines, entities, Some(htmlLines);
  }

  lemma NothingShown()
    ensures Kept([]) == [] && Plain([]) == "" && Html([]) == "" && LinkEntities([]) == [] && Length("") == 0
  {
  }

  method FormatHeartbeat(items: seq<Item>, emptyText: string) returns (plain: string, html: Option<string>)
    ensures Shown(items) == [] ==> plain == emptyText && html == None
    ensures Shown(items) != [] ==> plain == Plain(Shown(items)) && html == Some(Html(Shown(items)))
  {
    hide Plain, Html, Kept, Line, HtmlLine, Join;
    var shown := if |items| <= 3 then items else items[..3];
    var lines, htmlLines := "", "";
    NothingShown();
    ghost var kept: seq<Item> := [];
    assert shown[..0] == [];
    for k := 0 to |shown|
      invariant kept == Kept(shown[..k])
      invariant lines == Plain(kept) && htmlLines == Html(kept)
    {
      var i := shown[k];
      KeptSnoc(shown, k);
      if i.text != "" {
        PlainSnoc(kept, i);
        HtmlSnoc(kept, i);
        kept := kept + [i];
        lines := Join(lines, Line(i));
        htmlLines := Join(htmlLines, HtmlLine(i));
      }
    }
    assert shown[..|shown|] == shown;
    if lines == "" { return emptyText, None; }
    return lines, Some(htmlLines);
  }

  lemma JoinLength(a: string, b: string)
    ensures Length(Join(a, b)) == Length(a) + (if a == "" then 0 else 1) + Length(b)
  {
    EncodeAppend(a + "\n", b);
    EncodeAppend(a, "\n");
    assert Encode("\n") == CharUnits('\n') + Encode("\n"[1..]);
  }

  /** The newest link starts behind the bullet of the newest line. */
  lemma LastLinkCovers(kept: seq<Item>, i: Item)
    ensures Covers(Plain(kept + [i]), LinkAt(kept, i), i.text)
  {
    hide Plain, Covers, Length;
    PlainSnoc(kept, i);
    JoinLength(Plain(kept), BULLET);
    var before := Join(Plain(kept), BULLET);
    assert Plain(kept + [i]) == before + i.text;
    CoversEnd(before, i.text, LinkAt(kept, i));
  }

  lemma EarlierLinkCovers(kept: seq<Item>, i: Item, e: Entity, text: string)
    requires Covers(Plain(kept), e, text)
    ensures Covers(Plain(kept + [i]), e, text)
  {
    PlainSnoc(kept, i);
    hide Plain, Covers, Length, Line;
    var tail := "\n" + Line(i);
    if Plain(kept) == "" {
      assert Line(i) == Plain(kept) + Line(i);
      CoversMore(Plain(kept), Line(i), e, text);
    } else {
      assert Plain(kept + [i]) == Plain(kept) + tail;
      CoversMore(Plain(kept), tail, e, text);
    }
  }

  predicate LinksRight(kept: seq<Item>, es: seq<Entity>, links: seq<Item>)
    requires |es| == |links|
  {
    forall k :: 0 <= k < |es| ==> Covers(Plain(kept), es[k], links[k].text) && es[k].url == links[k].url
  }

  predicate Within(es: seq<Entity>, end: nat) {
    forall k :: 0 <= k < |es| ==> es[k].offset + es[k].length <= end
  }

  lemma LinksCoverNext(kept: seq<Item>, i: Item)
    requires LinksRight(kept, LinkEntities(kept), Links(kept))
    ensures LinksRight(kept + [i], LinkEntities(kept + [i]), Links(kept + [i]))
  {
    hide Plain, Covers, Length, LinkEntities, Links, LinkAt, Line;
    LinksSnoc(kept, i);
    LastLinkCovers(kept, i);
    LinkAddress(kept, i);
    forall k | 0 <= k < |LinkEntities(kept)|
      ensures Covers(Plain(kept + [i]), LinkEntities(kept)[k], Links(kept)[k].text) {
      EarlierLinkCovers(kept, i, LinkEntities(kept)[k], Links(kept)[k].text);
    }
  }

  lemma LinkAddress(kept: seq<Item>, i: Item)
    ensures LinkAt(kept, i).url == i.url
  {
  }

  lemma LinksOrderedNext(kept: seq<Item>, i: Item)
    requires Ordered(LinkEntities(kept)) && Within(LinkEntities(kept), Length(Plain(kept)))
    ensures Ordered(LinkEntities(kept + [i])) && Within(LinkEntities(kept + [i]), Length(Plain(kept + [i])))
  {
    hide Plain, Length, LinkEntities, Links, Line;
    LinksSnoc(kept, i);
    PlainSnoc(kept, i);
    LineLength(i);
  }

  /** Every link covers its own text; they come in order and do not touch. */
  lemma {:induction false} LinksCover(kept: seq<Item>)
    ensures LinksRight(kept, LinkEntities(kept), Links(kept))
    ensures Ordered(LinkEntities(kept)) && Within(LinkEntities(kept), Length(Plain(kept)))
  {
    hide Plain, Covers, Length;
    if kept != [] {
      hide LinkEntities, Links, LinksRight, Ordered, Within;
      var init, last := kept[..|kept| - 1], kept[|kept| - 1];
      LinksCover(init);
      LinksCoverNext(init, last);
      LinksOrderedNext(init, last);
      assert kept == init + [last];
    }
  }

  lemma LineLength(i: Item)
    ensures Length(Line(i)) == Length(BULLET) + Length(i.text)
  {
    EncodeAppend(BULLET, i.text);
  }

  /** The entities of a whole message: the icon's, if it has one, and the links moved into place. */
  method MessageEntities(icon: string, customIcon: bool, beforeRelated: string, links: seq<Entity>)
    returns (all: seq<Entity>)
    ensures all == (if customIcon then [Entity(0, Length(icon), None)] else [])
        + ShiftedAll(links, Length(beforeRelated))
  {
    all := if customIcon then [Entity(0, Length(icon), None)] else [];
    ghost var lead := all;
    var offset := Length(beforeRelated);
    assert links[..0] == [];
    for k := 0 to |links|
      invariant all == lead + ShiftedAll(links[..k], offset)
    {
      assert links[..k + 1][..k] == links[..k];
      all := all + [Shifted(links[k], offset)];
    }
    assert links[..|links|] == links;
  }

  function ShiftedAll(es: seq<Entity>, delta: nat): (r: seq<Entity>)
    ensures |r| == |es| && forall k :: 0 <= k < |r| ==> r[k] == Shifted(es[k], delta)
  {
    if es == [] then [] else ShiftedAll(es[..|es| - 1], delta) + [Shifted(es[|es| - 1], delta)]
  }

  function Text(before: string, section: string, after: string): string {
    before + section + after
  }

  lemma LinkInMessage(before: string, kept: seq<Item>, after: string, k: nat)
    requires k < |LinkEntities(kept)|
    ensures Covers(Text(before, Plain(kept), after), Shifted(LinkEntities(kept)[k], Length(before)),
        Links(kept)[k].text)
    ensures LinkEntities(kept)[k].url == Links(kept)[k].url
  {
    LinksCover(kept);
    hide Plain, Covers, Length, LinkEntities, Links;
    CoversShifted(before, Plain(kept), LinkEntities(kept)[k], Links(kept)[k].text);
    CoversMore(before + Plain(kept), after, Shifted(LinkEntities(kept)[k], Length(before)), Links(kept)[k].text);
  }

  lemma IconInMessage(icon: string, rest: string, section: string, after: string)
    ensures Covers(Text(icon + rest, section, after), Entity(0, Length(icon), None), icon)
  {
    var e := Entity(0, Length(icon), None);
    CoversStart(icon, rest, e);
    hide Covers, Length;
    CoversMore(icon + rest, section, e, icon);
    CoversMore(icon + rest + section, after, e, icon);
  }

  lemma MessageOrder(icon: string, customIcon: bool, rest: string, links: seq<Entity>, all: seq<Entity>)
    requires Ordered(links)
    requires all == (if customIcon then [Entity(0, Length(icon), None)] else [])
        + ShiftedAll(links, Length(icon + rest))
    ensures Ordered(all)
  {
    LengthAppend(icon, rest);
    hide Length;
  }

  /** Behind the first `lead` entities of the message come those of the links, each on its own text. */
  predicate LinksInPlace(text: string, all: seq<Entity>, lead: nat, links: seq<Item>) {
    |all| == lead + |links|
    && forall k :: 0 <= k < |links| ==> Covers(text, all[lead + k], links[k].text) && all[lead + k].url == links[k].url
  }

  lemma {:induction false} LinksPlaced(text: string, lead: seq<Entity>, moved: seq<Entity>, links: seq<Item>)
    requires |moved| == |links|
    requires forall k :: 0 <= k < |links| ==> Covers(text, moved[k], links[k].text) && moved[k].url == links[k].url
    ensures LinksInPlace(text, lead + moved, |lead|, links)
  {
    hide Covers;
    forall k | 0 <= k < |links| ensures (lead + moved)[|lead| + k] == moved[k] {}
  }

  /** In the message as built, each link covers exactly its own text, the icon's entity its icon, and
      all of them are in order without overlap. */
  lemma {:induction false} MessageLinks(icon: string, customIcon: bool, rest: string, items: seq<Item>, after: string,
      all: seq<Entity>)
    requires all == (if customIcon then [Entity(0, Length(icon), None)] else [])
        + ShiftedAll(LinkEntities(Shown(items)), Length(icon + rest))
    ensures var text := Text(icon + rest, Plain(Shown(items)), after);
            && Ordered(all) && (customIcon ==> all != [] && Covers(text, all[0], icon))
            && LinksInPlace(text, all, if customIcon then 1 else 0, Links(Shown(items)))
  {
    hide Plain, Covers, Shown, Length, LinkEntities, Links, Ordered, Text, ShiftedAll, LinksInPlace;
    var kept, before := Shown(items), icon + rest;
    var moved := ShiftedAll(LinkEntities(kept), Length(before));
    LinksCover(kept);
    MessageOrder(icon, customIcon, rest, LinkEntities(kept), all);
    forall k: nat | k < |Links(kept)|
      ensures Covers(Text(before, Plain(kept), after), moved[k], Links(kept)[k].text)
          && moved[k].url == Links(kept)[k].url
    {
      LinkInMessage(before, kept, after, k);
    }
    LinksPlaced(Text(before, Plain(kept), after),
      if customIcon then [Entity(0, Length(icon), None)] else [], moved, Links(kept));
    IconInMessage(icon, rest, Plain(kept), after);
  }

  lemma LengthAppend(a: string, b: string)
    ensures Length(a + b) == Length(a) + Length(b)
  {
    EncodeAppend(a, b);
  }
}
