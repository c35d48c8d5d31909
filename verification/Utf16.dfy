/**
 * UTF-16 code units of a text (section 2.1 of RFC 2781) and message entities, whose offsets and
 * lengths count them (bot/alerts.py `_utf16_length`, `_prefix_for_utf16_length`,
 * `_preserve_leading_entities_after_sanitize`).
 */
module Utf16 {
  import opened Prelude

  newtype Unit = x: int | 0 <= x < 0x10000

  function CharUnits(c: char): (u: seq<Unit>)
    ensures 1 <= |u| <= 2
  {
    var v := c as int;
    if v < 0x10000 then [v as Unit]
    else [(0xD800 + (v - 0x10000) / 0x400) as Unit, (0xDC00 + (v - 0x10000) % 0x400) as Unit]
  }

  function Encode(s: string): (u: seq<Unit>)
    ensures |s| <= |u|
  {
    if s == "" then [] else CharUnits(s[0]) + Encode(s[1..])
  }

  function Length(s: string): nat {
    |Encode(s)|
  }

  lemma {:induction false} EncodeAppend(a: string, b: string)
    ensures Encode(a + b) == Encode(a) + Encode(b)
  {
    if a == "" {
      assert a + b == b;
    } else {
      assert (a + b)[1..] == a[1..] + b;
      EncodeAppend(a[1..], b);
    }
  }

  /** Section 2.2 of RFC 2781, read back: a unit outside the surrogate range is a character, a high and a
      low surrogate make one together, and anything else is an error. */
  function Decode(u: seq<Unit>): Option<string>
    decreases |u|
  {
    if u == [] then Some("")
    else if u[0] < 0xD800 || u[0] > 0xDFFF then Led((u[0] as int) as char, Decode(u[1..]))
    else if u[0] <= 0xDBFF && |u| > 1 && 0xDC00 <= u[1] <= 0xDFFF
    then Led((0x10000 + (u[0] as int - 0xD800) * 0x400 + (u[1] as int - 0xDC00)) as char, Decode(u[2..]))
    else None
  }

  function Led(c: char, rest: Option<string>): Option<string> {
    if rest.Some? then Some([c] + rest.value) else None
  }

  /** One character: itself below 0x10000, and above a high surrogate followed by a low one. */
  lemma OneCharacter(c: char)
    ensures (c as int) < 0x10000 ==> Encode([c]) == [(c as int) as Unit]
    ensures (c as int) >= 0x10000 ==>
              && |Encode([c])| == 2 && 0xD800 <= Encode([c])[0] <= 0xDBFF && 0xDC00 <= Encode([c])[1] <= 0xDFFF
              && c as int - 0x10000 == (Encode([c])[0] as int - 0xD800) * 0x400 + (Encode([c])[1] as int - 0xDC00)
    ensures Decode(Encode([c])) == Some([c])
  {
    assert [c][1..] == "" && Encode([c]) == CharUnits(c) + Encode("") == CharUnits(c);
    EncodedBack([c]);
  }

  lemma CharBack(c: char, rest: seq<Unit>)
    ensures Decode(CharUnits(c) + rest) == Led(c, Decode(rest))
  {
    var u := CharUnits(c);
    assert (u + rest)[|u|..] == rest;
    if |u| == 2 {
      assert (u + rest)[0] == u[0] && (u + rest)[1] == u[1] && (u + rest)[2..] == rest;
    }
  }

  /** The text comes back from its units. */
  lemma {:induction false} EncodedBack(s: string)
    ensures Decode(Encode(s)) == Some(s)
  {
    if s != "" {
      CharBack(s[0], Encode(s[1..]));
      EncodedBack(s[1..]);
      assert s == [s[0]] + s[1..];
    }
  }

  /** Characters that need two units. */
  function Supplementary(s: string): nat {
    if s == "" then 0 else (if (s[0] as int) >= 0x10000 then 1 else 0) + Supplementary(s[1..])
  }

  /** The length counts every character once and those at or above 0x10000 twice. */
  lemma {:induction false} LengthCounts(s: string)
    ensures Length(s) == |s| + Supplementary(s)
  {
    if s != "" { LengthCounts(s[1..]); }
  }

  /** A Telegram message entity; `url` is present on a text link. */
  datatype Entity = Entity(offset: nat, length: nat, url: Option<string>)

  /** The entity's units in `text` are exactly those of `covered`. */
  predicate Covers(text: string, e: Entity, covered: string) {
    e.offset + e.length <= Length(text) && Encode(text)[e.offset..e.offset + e.length] == Encode(covered)
  }

  lemma {:induction false} DecodedBack(u: seq<Unit>, s: string)
    requires Decode(u) == Some(s)
    ensures Encode(s) == u
    decreases |u|
  {
    if u != [] {
      var n := if u[0] < 0xD800 || u[0] > 0xDFFF then 1 else 2;
      assert s == [s[0]] + s[1..] && CharUnits(s[0]) == u[..n];
      DecodedBack(u[n..], s[1..]);
      assert u == u[..n] + u[n..];
    }
  }

  /** That is, they decode to `covered`. */
  lemma CoversReads(text: string, e: Entity, covered: string)
    ensures Covers(text, e, covered) <==>
              e.offset + e.length <= |Encode(text)|
              && Decode(Encode(text)[e.offset..e.offset + e.length]) == Some(covered)
  {
    EncodedBack(covered);
    if e.offset + e.length <= |Encode(text)| {
      var u := Encode(text)[e.offset..e.offset + e.length];
      if Decode(u) == Some(covered) { DecodedBack(u, covered); }
    }
  }

  predicate Ordered(es: seq<Entity>) {
    forall i, j :: 0 <= i < j < |es| ==> es[i].offset + es[i].length <= es[j].offset
  }

  lemma CoversEnd(before: string, covered: string, e: Entity)
    requires e.offset == Length(before) && e.length == Length(covered)
    ensures Covers(before + covered, e, covered)
  {
    EncodeAppend(before, covered);
  }

  lemma CoversStart(covered: string, after: string, e: Entity)
    requires e.offset == 0 && e.length == Length(covered)
    ensures Covers(covered + after, e, covered)
  {
    EncodeAppend(covered, after);
  }

  /** Text appended leaves an entity alone. */
  lemma CoversMore(text: string, after: string, e: Entity, covered: string)
    requires Covers(text, e, covered)
    ensures Covers(text + after, e, covered)
  {
    EncodeAppend(text, after);
    assert (Encode(text) + Encode(after))[e.offset..e.offset + e.length] == Encode(text)[e.offset..e.offset + e.length];
  }

  function Shifted(e: Entity, delta: nat): Entity {
    e.(offset := e.offset + delta)
  }

  /** A slice of the second part, found behind the first. */
  lemma SliceBehind(a: seq<Unit>, b: seq<Unit>, from: nat, to: nat)
    requires from <= to <= |b|
    ensures (a + b)[|a| + from..|a| + to] == b[from..to]
  {
  }

  /** Text put in front of a section moves its entities by the units before it. */
  lemma CoversShifted(before: string, section: string, e: Entity, covered: string)
    requires Covers(section, e, covered)
    ensures Covers(before + section, Shifted(e, Length(before)), covered)
  {
    EncodeAppend(before, section);
    hide Encode;
    SliceBehind(Encode(before), Encode(section), e.offset, e.offset + e.length);
  }

  lemma LengthSnoc(s: string, k: nat)
    requires k < |s|
    ensures Length(s[..k + 1]) == Length(s[..k]) + |CharUnits(s[k])|
  {
    assert s[..k + 1] == s[..k] + [s[k]];
    EncodeAppend(s[..k], [s[k]]);
    assert Encode([s[k]]) == CharUnits(s[k]) + Encode([s[k]][1..]);
  }

  lemma {:induction false} LongerPrefix(s: string, j: nat, k: nat)
    requires j < k <= |s|
    ensures Length(s[..j]) < Length(s[..k])
    decreases k
  {
    LengthSnoc(s, k - 1);
    if j < k - 1 { LongerPrefix(s, j, k - 1); }
  }

  /** The non-empty prefix of exactly `n` units, if no character straddles the end of it. */
  method PrefixOfLength(text: string, n: int) returns (r: string)
    ensures r <= text
    ensures r != "" ==> Length(r) == n
    ensures forall k :: 0 < k <= |text| && Length(text[..k]) == n ==> r == text[..k]
  {
    var consumed, i := 0, 0;
    var stop := false;
    while i < |text| && !stop
      invariant i <= |text| && consumed == Length(text[..i])
      invariant stop <==> i > 0 && consumed >= n
      invariant forall k :: 0 < k < i ==> Length(text[..k]) < n
      decreases |text| - i, !stop
    {
      LengthSnoc(text, i);
      consumed := consumed + |CharUnits(text[i])|;
      i := i + 1;
      stop := consumed >= n;
    }
    forall k | i < k <= |text| ensures Length(text[..k]) > consumed {
      LongerPrefix(text, i, k);
    }
    r := if consumed != n then "" else text[..i];
  }

  /** A leading entity is kept if its text still leads. */
  predicate StillLeads(e: Entity, original: string, sanitized: string) {
    e.offset == 0 && exists k :: 0 < k <= |original| && Length(original[..k]) == e.length && original[..k] <= sanitized
  }

  method PreserveLeading(entities: seq<Entity>, original: string, sanitized: string) returns (r: Option<seq<Entity>>)
    ensures r == if entities != [] && forall e :: e in entities ==> StillLeads(e, original, sanitized)
        then Some(entities) else None
  {
    forall k | 0 < k <= |original| ensures Length(original[..k]) > 0 {
      LongerPrefix(original, 0, k);
    }
    hide Length;
    if entities == [] { return None; }
    for i := 0 to |entities|
      invariant forall e :: e in entities[..i] ==> StillLeads(e, original, sanitized)
    {
      var e := entities[i];
      if e.offset != 0 || e.length <= 0 {
        assert !StillLeads(e, original, sanitized);
        return None;
      }
      var prefix := PrefixOfLength(original, e.length);
      if prefix == "" || !(prefix <= sanitized) {
        assert !StillLeads(e, original, sanitized);
        return None;
      }
      assert original[..|prefix|] == prefix;
    }
    r := Some(entities);
  }

  /** Kept entities cover in the sanitized text what they covered in the original. */
  lemma PreservedCover(e: Entity, original: string, sanitized: string, covered: string)
    requires StillLeads(e, original, sanitized)
    ensures Covers(original, e, covered) <==> Covers(sanitized, e, covered)
  {
    var k :| 0 < k <= |original| && Length(original[..k]) == e.length && original[..k] <= sanitized;
    var p := original[..k];
    assert original == p + original[k..] && sanitized == p + sanitized[k..];
    EncodeAppend(p, original[k..]);
    EncodeAppend(p, sanitized[k..]);
    assert Encode(original)[..e.length] == Encode(p) == Encode(sanitized)[..e.length];
  }
}
