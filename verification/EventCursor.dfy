/** Where a follow starts (`internal/api/eventstream.go`), told on the two texts a client may send, and what it
    reads of an activity row. */
module EventCursor {
  import opened Text
  import opened EventFrames
  import opened EventFollow

  // ----- Numerals

  predicate AllDigits(text: string) {
    forall i :: 0 <= i < |text| ==> IsDigit(text[i])
  }

  /** Place value. */
  function NumeralValue(text: string): nat
    requires AllDigits(text)
  {
    if text == "" then 0 else NumeralValue(text[..|text| - 1]) * 10 + (text[|text| - 1] as int - '0' as int)
  }

  lemma {:induction false} ParsesNumerals(text: string)
    ensures ParseDigits(text, 0).Some? <==> AllDigits(text)
    ensures AllDigits(text) ==> ParseDigits(text, 0) == Some(NumeralValue(text))
  {
    if text != "" {
      var init, last := text[..|text| - 1], text[|text| - 1];
      ParsesNumerals(init);
      assert text == init + [last];
      if AllDigits(text) {
        ParseAppend(init, last, 0);
      } else {
        ParseFails(text, 0);
      }
    }
  }

  lemma {:induction false} ParseStops(init: string, c: char, value: nat, rest: string)
    requires !IsDigit(c)
    ensures ParseDigits(init + [c] + rest, value).None?
  {
    if init != "" {
      ParseStops(init[1..], c, if IsDigit(init[0]) then value * 10 + (init[0] as int - '0' as int) else 0, rest);
      assert (init + [c] + rest)[1..] == init[1..] + [c] + rest;
    }
  }

  lemma ParseFails(text: string, value: nat)
    requires !AllDigits(text)
    ensures ParseDigits(text, value).None?
  {
    var i :| 0 <= i < |text| && !IsDigit(text[i]);
    ParseStops(text[..i], text[i], value, text[i + 1..]);
    assert text == text[..i] + [text[i]] + text[i + 1..];
  }

  /** The texts that name the cursor `n`: digits worth `n`, perhaps behind a plus sign, or a negative zero. */
  predicate Names(text: string, n: nat) {
    && n <= 0x7FFF_FFFF_FFFF_FFFF && text != ""
    && var digits := if text[0] == '+' || text[0] == '-' then text[1..] else text;
    && digits != "" && AllDigits(digits) && NumeralValue(digits) == n && (text[0] == '-' ==> n == 0)
  }

  lemma NamedExactly(text: string, n: nat)
    ensures Named(text) == After(n) <==> Names(text, n)
    ensures Named(text) != FromHead
  {
    if text != "" {
      ParsesNumerals(if text[0] == '+' || text[0] == '-' then text[1..] else text);
    }
  }

  /** A header wins over the query; a text that names no cursor is refused wherever it stands; nothing at all
      means the head. */
  lemma StartExactly(after: string, lastEventId: string, n: nat)
    ensures var r := StartOf(after, lastEventId);
      && (r == FromHead <==> after == "" && lastEventId == "")
      && (r == After(n) <==>
          if lastEventId != "" then Names(lastEventId, n) && (after == "" || NamesSome(after)) else Names(after, n))
      && (r == Malformed <==>
          (after != "" && !NamesSome(after)) || (lastEventId != "" && !NamesSome(lastEventId)))
  {
    NamedExactly(after, n);
    NamedExactly(lastEventId, n);
    NamedSome(after);
    NamedSome(lastEventId);
  }

  ghost predicate NamesSome(text: string) {
    exists n: nat :: Names(text, n)
  }

  lemma NamedSome(text: string)
    ensures Named(text) == Malformed <==> !NamesSome(text)
  {
    hide Names;
    if Named(text).After? { NamedExactly(text, Named(text).cursor); }
    if NamesSome(text) {
      var n: nat :| Names(text, n);
      NamedExactly(text, n);
    }
    NamedExactly(text, 0);
  }

  // ----- Activity rows

  /** A reader learns an activity row's id and its whole markup, line for line, but for newlines at the end. */
  lemma ActivityReads(id: nat, markup: string)
    ensures Read(FrameText(ActivityFrame(id, markup))).sent ==
      [Message(Decimal(id), "activity", TrimNewlines(NormaliseBreaks(markup)))]
  {
    var f := ActivityFrame(id, markup);
    ReadBack([f]);
    assert StreamText([f]) == FrameText(f);
    assert ToldAll([f]) == Told(f);
  }
}
