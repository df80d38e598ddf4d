/** The two HTML escapes of the invoice documents: five passes, and one pass over a table. */
module EscapeHtml {
  import opened Options

  const APOSTROPHE_3 := "&#039;"
  const APOSTROPHE_2 := "&#39;"

  function ReplaceAll(s: string, c: char, entity: string): string {
    if s == "" then "" else (if s[0] == c then entity else [s[0]]) + ReplaceAll(s[1..], c, entity)
  }

  /** Ampersand first, then `<`, `>`, the quote and the apostrophe. */
  function FivePasses(s: string): string {
    var noMarkup := ReplaceAll(ReplaceAll(ReplaceAll(s, '&', "&amp;"), '<', "&lt;"), '>', "&gt;");
    ReplaceAll(ReplaceAll(noMarkup, '"', "&quot;"), '\'', APOSTROPHE_3)
  }

  function Entity(c: char, apostrophe: string): string {
    match c
    case '&' => "&amp;"
    case '<' => "&lt;"
    case '>' => "&gt;"
    case '"' => "&quot;"
    case '\'' => apostrophe
    case _ => [c]
  }

  function Mapped(s: string, apostrophe: string): string {
    if s == "" then "" else Entity(s[0], apostrophe) + Mapped(s[1..], apostrophe)
  }

  /** A missing text and an empty one both give nothing. */
  function SinglePass(text: Option<string>): string {
    if text.None? then "" else Mapped(text.value, APOSTROPHE_2)
  }

  /** Replaces each occurrence of `from`, leftmost first. */
  function Respelled(s: string, from: string, to: string): string
    requires from != ""
    decreases |s|
  {
    if s == "" then ""
    else if from <= s then to + Respelled(s[|from|..], from, to)
    else [s[0]] + Respelled(s[1..], from, to)
  }

  function EntityLength(s: string): nat {
    if "&amp;" <= s then 5 else if "&lt;" <= s || "&gt;" <= s then 4
    else if "&quot;" <= s || APOSTROPHE_3 <= s then 6 else if APOSTROPHE_2 <= s then 5 else 0
  }

  function EntityChar(s: string): char {
    if "&amp;" <= s then '&' else if "&lt;" <= s then '<' else if "&gt;" <= s then '>'
    else if "&quot;" <= s then '"' else '\''
  }

  /** Reads either spelling back. */
  function Unescape(s: string): string
    decreases |s|
  {
    if s == "" then ""
    else if EntityLength(s) > 0 then [EntityChar(s)] + Unescape(s[EntityLength(s)..])
    else [s[0]] + Unescape(s[1..])
  }

  // ---------------------------------------------------------------------
  // The five passes are one
  // ---------------------------------------------------------------------

  lemma ReplaceAllFirst(a: string, c: char, entity: string)
    requires a != ""
    ensures ReplaceAll(a, c, entity) == (if a[0] == c then entity else [a[0]]) + ReplaceAll(a[1..], c, entity)
  {
  }

  lemma {:induction false} ReplaceAllSplits(a: string, b: string, c: char, entity: string)
    ensures ReplaceAll(a + b, c, entity) == ReplaceAll(a, c, entity) + ReplaceAll(b, c, entity)
  {
    if a == "" {
      assert a + b == b;
    } else {
      assert (a + b)[0] == a[0] && (a + b)[1..] == a[1..] + b;
      ReplaceAllFirst(a + b, c, entity);
      ReplaceAllFirst(a, c, entity);
      ReplaceAllSplits(a[1..], b, c, entity);
    }
  }

  lemma {:induction false} ReplaceAllSpares(s: string, c: char, entity: string)
    requires c !in s
    ensures ReplaceAll(s, c, entity) == s
  {
    if s != "" { ReplaceAllSpares(s[1..], c, entity); }
  }

  lemma FivePassesSplit(a: string, b: string)
    ensures FivePasses(a + b) == FivePasses(a) + FivePasses(b)
  {
    ReplaceAllSplits(a, b, '&', "&amp;");
    var a1, b1 := ReplaceAll(a, '&', "&amp;"), ReplaceAll(b, '&', "&amp;");
    ReplaceAllSplits(a1, b1, '<', "&lt;");
    var a2, b2 := ReplaceAll(a1, '<', "&lt;"), ReplaceAll(b1, '<', "&lt;");
    ReplaceAllSplits(a2, b2, '>', "&gt;");
    var a3, b3 := ReplaceAll(a2, '>', "&gt;"), ReplaceAll(b2, '>', "&gt;");
    ReplaceAllSplits(a3, b3, '"', "&quot;");
    ReplaceAllSplits(ReplaceAll(a3, '"', "&quot;"), ReplaceAll(b3, '"', "&quot;"), '\'', APOSTROPHE_3);
  }

  lemma PassOfOne(c: char, at: char, entity: string, before: string, after: string)
    requires if c == at then before == [c] && after == entity else after == before && at !in before
    ensures ReplaceAll(before, at, entity) == after
  {
    if c == at {
      assert ReplaceAll(before[1..], at, entity) == "";
    } else {
      ReplaceAllSpares(before, at, entity);
    }
  }

  /** What is left of one character after a pass that has or has not replaced it. */
  function Stage(c: char, replaced: bool): (s: string)
    ensures !replaced ==> s == [c]
    ensures replaced ==> '<' !in s && '>' !in s && '"' !in s && '\'' !in s
  {
    if !replaced then [c] else if c == '&' then "&amp;" else if c == '<' then "&lt;" else if c == '>' then "&gt;"
    else if c == '"' then "&quot;" else APOSTROPHE_3
  }

  /** No replacement's output is touched by a later pass. */
  lemma FivePassesOfOne(c: char)
    ensures FivePasses([c]) == Stage(c, c == '&' || c == '<' || c == '>' || c == '"' || c == '\'')
  {
    var s1 := Stage(c, c == '&');
    PassOfOne(c, '&', "&amp;", [c], s1);
    var s2 := Stage(c, c == '&' || c == '<');
    PassOfOne(c, '<', "&lt;", s1, s2);
    var s3 := Stage(c, c == '&' || c == '<' || c == '>');
    PassOfOne(c, '>', "&gt;", s2, s3);
    var s4 := Stage(c, c == '&' || c == '<' || c == '>' || c == '"');
    PassOfOne(c, '"', "&quot;", s3, s4);
    var s5 := Stage(c, c == '&' || c == '<' || c == '>' || c == '"' || c == '\'');
    PassOfOne(c, '\'', APOSTROPHE_3, s4, s5);
  }

  /** The five replacements in a row are one pass with a table, for every string. */
  lemma {:induction false} FivePassesAreOne(s: string)
    ensures FivePasses(s) == Mapped(s, APOSTROPHE_3)
  {
    if s != "" {
      FivePassesOfOne(s[0]);
      FivePassesSplit([s[0]], s[1..]);
      assert s == [s[0]] + s[1..];
      FivePassesAreOne(s[1..]);
    }
  }

  lemma MappedOfOne(c: char, apostrophe: string)
    ensures Mapped([c], apostrophe) == Entity(c, apostrophe)
  {
    assert [c][1..] == "";
  }

  /** What stands for each character in either form; with `FivePassesSplit` this says what every text becomes. */
  lemma CharacterIsSpelled(c: char)
    ensures FivePasses([c]) == if c == '&' then "&amp;" else if c == '<' then "&lt;" else if c == '>' then "&gt;"
                               else if c == '"' then "&quot;" else if c == '\'' then "&#039;" else [c]
    ensures SinglePass(Some([c])) == if c == '\'' then "&#39;" else FivePasses([c])
  {
    FivePassesAreOne([c]);
    MappedOfOne(c, APOSTROPHE_3);
    MappedOfOne(c, APOSTROPHE_2);
  }

  // ---------------------------------------------------------------------
  // The two forms differ in one spelling only
  // ---------------------------------------------------------------------

  /** Text that starts like no entity is passed over unchanged. */
  lemma {:induction false} RespelledSkips(head: string, tail: string, from: string, to: string)
    requires from != "" && from[0] == '&' && '&' !in head
    ensures Respelled(head + tail, from, to) == head + Respelled(tail, from, to)
  {
    if head == "" {
      assert head + tail == tail;
    } else {
      assert (head + tail)[0] != '&';
      assert (head + tail)[1..] == head[1..] + tail;
      RespelledSkips(head[1..], tail, from, to);
    }
  }

  lemma RespelledApostrophe(tail: string)
    ensures Respelled(APOSTROPHE_2 + tail, APOSTROPHE_2, APOSTROPHE_3)
         == APOSTROPHE_3 + Respelled(tail, APOSTROPHE_2, APOSTROPHE_3)
  {
    var all := APOSTROPHE_2 + tail;
    assert all[|APOSTROPHE_2|..] == tail;
  }

  /** An entity whose second character differs from the one sought stays. */
  lemma RespelledOther(e: string, tail: string, from: string, to: string)
    requires |e| > 1 && |from| > 1 && from[0] == '&' && e[0] == '&' && e[1] != from[1] && '&' !in e[1..]
    ensures Respelled(e + tail, from, to) == e + Respelled(tail, from, to)
  {
    var all := e + tail;
    assert all[1] == e[1];
    assert all[1..] == e[1..] + tail;
    RespelledSkips(e[1..], tail, from, to);
    assert e == [e[0]] + e[1..];
  }

  lemma RespelledEntity(c: char, tail: string)
    ensures Respelled(Entity(c, APOSTROPHE_2) + tail, APOSTROPHE_2, APOSTROPHE_3)
         == Entity(c, APOSTROPHE_3) + Respelled(tail, APOSTROPHE_2, APOSTROPHE_3)
  {
    if c == '\'' {
      RespelledApostrophe(tail);
    } else if c == '&' || c == '<' || c == '>' || c == '"' {
      RespelledOther(Entity(c, APOSTROPHE_2), tail, APOSTROPHE_2, APOSTROPHE_3);
    } else {
      RespelledSkips([c], tail, APOSTROPHE_2, APOSTROPHE_3);
    }
  }

  /** The single pass gives the five passes' text once its apostrophes are spelled with the extra zero. */
  lemma {:induction false} FormsAgree(s: string)
    ensures Respelled(SinglePass(Some(s)), APOSTROPHE_2, APOSTROPHE_3) == FivePasses(s)
  {
    FivePassesAreOne(s);
    if s != "" {
      RespelledEntity(s[0], Mapped(s[1..], APOSTROPHE_2));
      FormsAgree(s[1..]);
      FivePassesAreOne(s[1..]);
    }
  }

  // ---------------------------------------------------------------------
  // Nothing is lost and nothing dangerous is left
  // ---------------------------------------------------------------------

  predicate Spelling(apostrophe: string) { apostrophe == APOSTROPHE_2 || apostrophe == APOSTROPHE_3 }

  lemma StartsWith(e: string, tail: string, other: string)
    requires |e| > 1 && |other| > 1
    ensures e <= e + tail
    ensures e[1] != other[1] ==> !(other <= e + tail)
  {
    var all := e + tail;
    assert all[1] == e[1];
  }

  lemma EntityReads(c: char, apostrophe: string, tail: string)
    requires Spelling(apostrophe)
    ensures Unescape(Entity(c, apostrophe) + tail) == [c] + Unescape(tail)
  {
    var e := Entity(c, apostrophe);
    var all := e + tail;
    assert all[|e|..] == tail;
    if |e| == 1 {
      assert all[0] == c && c != '&';
    } else {
      EntityStarts(c, apostrophe, tail);
    }
  }

  lemma EntityStarts(c: char, apostrophe: string, tail: string)
    requires Spelling(apostrophe) && |Entity(c, apostrophe)| > 1
    ensures EntityLength(Entity(c, apostrophe) + tail) == |Entity(c, apostrophe)|
    ensures EntityChar(Entity(c, apostrophe) + tail) == c
  {
    var e := Entity(c, apostrophe);
    StartsWith(e, tail, "&amp;");
    StartsWith(e, tail, "&lt;");
    StartsWith(e, tail, "&gt;");
    StartsWith(e, tail, "&quot;");
    assert (e + tail)[2] == e[2];
  }

  lemma {:induction false} MappedReadsBack(s: string, apostrophe: string)
    requires Spelling(apostrophe)
    ensures Unescape(Mapped(s, apostrophe)) == s
  {
    if s != "" {
      EntityReads(s[0], apostrophe, Mapped(s[1..], apostrophe));
      MappedReadsBack(s[1..], apostrophe);
      assert s == [s[0]] + s[1..];
    }
  }

  /** One reader inverts both forms, so different texts never escape to the same one. */
  lemma UnescapeInvertsBoth(s: string)
    ensures Unescape(FivePasses(s)) == s
    ensures Unescape(SinglePass(Some(s))) == s
  {
    FivePassesAreOne(s);
    MappedReadsBack(s, APOSTROPHE_3);
    MappedReadsBack(s, APOSTROPHE_2);
  }

  predicate IsMarkup(c: char) { c == '<' || c == '>' || c == '"' || c == '\'' }

  /** Neither form leaves a character that could close a tag or an attribute. */
  lemma {:induction false} NoMarkupLeft(s: string)
    ensures forall c :: IsMarkup(c) ==> c !in FivePasses(s) && c !in SinglePass(Some(s))
  {
    FivePassesAreOne(s);
    if s != "" {
      NoMarkupLeft(s[1..]);
      FivePassesAreOne(s[1..]);
      forall c | IsMarkup(c)
        ensures c !in Entity(s[0], APOSTROPHE_3) && c !in Entity(s[0], APOSTROPHE_2)
      {
      }
    }
  }
}
