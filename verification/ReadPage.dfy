/** Page parameters and cursors: decimal text in and out (server/read_page.go). */
module ReadPage {
  import opened Common

  const DEFAULT_LIMIT := 100_000
  const MAX_INT64 := 9_223_372_036_854_775_807
  const MIN_INT64 := -9_223_372_036_854_775_808

  predicate InRange(n: int) { MIN_INT64 <= n <= MAX_INT64 }

  // ---- Decimal integers ----------------------------------------------------

  predicate IsDigit(c: char) { '0' <= c <= '9' }

  function DigitOf(d: nat): char
    requires d < 10
  {
    ('0' as int + d) as char
  }

  /** %d of a natural number. */
  function Digits(n: nat): (s: string)
    ensures s != [] && forall i :: 0 <= i < |s| ==> IsDigit(s[i])
  {
    if n < 10 then [DigitOf(n)] else Digits(n / 10) + [DigitOf(n % 10)]
  }

  function PrintInt(n: int): string { if n < 0 then ['-'] + Digits(-n) else Digits(n) }

  /** The value of a string of digits, None if there are none or something else. */
  function ParseDigits(s: string): Option<nat> {
    if s == [] || !IsDigit(s[|s| - 1]) then None else
      var d := s[|s| - 1] as int - '0' as int;
      if |s| == 1 then Some(d) else
        var rest := ParseDigits(s[..|s| - 1]);
        if rest.None? then None else Some(rest.value * 10 + d)
  }

  /** strconv.ParseInt(s, 10, 64): an optional sign, digits, and a value that fits. */
  function ParseInt(s: string): Option<int> {
    if s == [] then None else
      var signed := s[0] == '-' || s[0] == '+';
      var value := ParseDigits(if signed then s[1..] else s);
      if value.None? then None else
        var v: int := value.value;
        var n := if s[0] == '-' then -v else v;
        if InRange(n) then Some(n) else None
  }

  lemma {:induction false} DigitsParse(n: nat)
    ensures ParseDigits(Digits(n)) == Some(n)
  {
    if n >= 10 {
      DigitsParse(n / 10);
      var s := Digits(n);
      assert s[..|s| - 1] == Digits(n / 10) && s[|s| - 1] == DigitOf(n % 10);
    }
  }

  /** A printed integer is read back. */
  lemma IntRoundTrip(n: int)
    requires InRange(n)
    ensures ParseInt(PrintInt(n)) == Some(n)
  {
    DigitsParse(if n < 0 then -n else n);
    assert n < 0 ==> PrintInt(n)[1..] == Digits(-n);
    assert n >= 0 ==> IsDigit(PrintInt(n)[0]);
  }

  // ---- Cursors -------------------------------------------------------------

  predicate IsSpace(c: char) { c == ' ' || c == '\t' || c == '\n' || c == '\r' || c == 11 as char || c == 12 as char }

  /** strings.TrimSpace on ASCII text. */
  function Trim(s: string): string {
    if s == [] then []
    else if IsSpace(s[0]) then Trim(s[1..])
    else if IsSpace(s[|s| - 1]) then Trim(s[..|s| - 1])
    else s
  }

  /** Where the first colon is; the length if there is none. */
  function Colon(s: string): (i: nat)
    ensures i <= |s| && (i < |s| ==> s[i] == ':') && forall j :: 0 <= j < i ==> s[j] != ':'
  {
    if s == [] || s[0] == ':' then 0 else 1 + Colon(s[1..])
  }

  ghost predicate Spaces(s: string) { forall i :: 0 <= i < |s| ==> IsSpace(s[i]) }

  /** Spaces around a text do not matter. */
  lemma {:induction false} TrimPadded(a: string, s: string, b: string)
    requires Spaces(a) && Spaces(b)
    ensures Trim(a + s + b) == Trim(s)
    decreases |a| + |b| + |s|
  {
    var t := a + s + b;
    if a != [] {
      assert t[1..] == a[1..] + s + b;
      TrimPadded(a[1..], s, b);
    } else if s == [] {
      assert t == b;
      TrimSpaces(b);
    } else if IsSpace(s[0]) {
      assert t[1..] == a + s[1..] + b;
      TrimPadded(a, s[1..], b);
    } else if b != [] {
      assert t[..|t| - 1] == a + s + b[..|b| - 1] && t[0] == s[0] && t[|t| - 1] == b[|b| - 1];
      TrimPadded(a, s, b[..|b| - 1]);
    } else {
      assert t == s;
    }
  }

  lemma {:induction false} TrimSpaces(s: string)
    requires Spaces(s)
    ensures Trim(s) == []
  {
    if s != [] {
      TrimSpaces(s[1..]);
    }
  }

  /** A text of digits, and only such a text, has a value; zeros in front do not change it. */
  lemma {:induction false} DigitsExactly(s: string)
    ensures ParseDigits(s).Some? <==> s != [] && forall i :: 0 <= i < |s| ==> IsDigit(s[i])
    ensures s != [] ==> ParseDigits(['0'] + s) == ParseDigits(s)
  {
    if s != [] {
      var n := |s| - 1;
      DigitsExactly(s[..n]);
      assert (['0'] + s)[..n + 1] == ['0'] + s[..n] && (['0'] + s)[n + 1] == s[n];
      if n == 0 {
        assert ParseDigits(['0']) == Some(0);
        assert ['0'] + s[..n] == ['0'];
      }
      assert s == s[..n] + [s[n]];
    }
  }

  /** An integer is digits with at most one sign in front, if the value fits. */
  lemma IntExactly(s: string)
    ensures ParseInt(s).Some? <==>
      && s != []
      && var t := if s[0] == '-' || s[0] == '+' then s[1..] else s;
         ParseDigits(t).Some? && var v: int := ParseDigits(t).value; InRange(if s[0] == '-' then -v else v)
    ensures ParseDigits(s).Some? && InRange(ParseDigits(s).value) ==> ParseInt(['+'] + s) == ParseInt(s) == Some(ParseDigits(s).value)
  {
    DigitsExactly(s);
    assert (['+'] + s)[1..] == s;
  }

  datatype Page = Page(limit: nat, afterUnix: int, afterID: int)

  datatype PageError = BadLimit | BadCursor | BadTimestamp | BadID

  function ParseCursor(raw: string, limit: nat): Result<Page, PageError> {
    var cursor := Trim(raw);
    if cursor == [] then Ok(Page(limit, 0, 0)) else
      var i := Colon(cursor);
      if i == 0 || i >= |cursor| - 1 then Err(BadCursor) else
        var unix, id := ParseInt(cursor[..i]), ParseInt(cursor[i + 1..]);
        if unix.None? then Err(BadTimestamp)
        else if id.None? || id.value < 1 then Err(BadID)
        else Ok(Page(limit, unix.value, id.value))
  }

  /** parseReadPage on the two raw parameters. */
  function ParsePage(rawLimit: string, rawCursor: string): Result<Page, PageError> {
    var text := Trim(rawLimit);
    var n := ParseInt(text);
    if text != [] && (n.None? || n.value < 1 || n.value > DEFAULT_LIMIT) then Err(BadLimit)
    else ParseCursor(rawCursor, if text == [] then DEFAULT_LIMIT else n.value)
  }

  /** nextReadCursor: the cursor, if any, and whether the reading is complete. */
  function NextCursor(unix: int, id: int, count: nat, limit: nat): (string, bool) {
    if count < limit || id < 1 then ("", count < limit) else (PrintInt(unix) + [':'] + PrintInt(id), false)
  }

  lemma PlainText(n: int)
    ensures PrintInt(n) != [] && forall i :: 0 <= i < |PrintInt(n)| ==> IsDigit(PrintInt(n)[i]) || PrintInt(n)[i] == '-'
  {
  }

  lemma ColonAt(a: string, b: string)
    requires forall i :: 0 <= i < |a| ==> a[i] != ':'
    ensures Colon(a + [':'] + b) == |a|
  {
    var s := a + [':'] + b;
    assert s[|a|] == ':' && forall i :: 0 <= i < |a| ==> s[i] == a[i];
  }

  /**
   A printed cursor is read back as the position it was printed for, with the
   limit it was asked for.
   */
  lemma CursorRoundTrip(unix: int, id: int, count: nat, limit: nat)
    requires InRange(unix) && InRange(id) && id >= 1 && 1 <= limit <= DEFAULT_LIMIT && count >= limit
    ensures NextCursor(unix, id, count, limit).1 == false
    ensures ParsePage(PrintInt(limit), NextCursor(unix, id, count, limit).0) == Ok(Page(limit, unix, id))
  {
    var a, b := PrintInt(unix), PrintInt(id);
    var s := a + [':'] + b;
    PlainText(unix);
    PlainText(id);
    PlainText(limit);
    ColonAt(a, b);
    assert s[..|a|] == a && s[|a| + 1..] == b;
    assert s[0] == a[0] && s[|s| - 1] == b[|b| - 1];
    assert Trim(s) == s && Trim(PrintInt(limit)) == PrintInt(limit);
    IntRoundTrip(unix);
    IntRoundTrip(id);
    IntRoundTrip(limit);
  }

  /** Parameters may be padded with spaces. */
  lemma PaddedPages(a: string, limit: string, b: string, c: string, cursor: string, d: string)
    requires Spaces(a) && Spaces(b) && Spaces(c) && Spaces(d)
    ensures ParsePage(a + limit + b, c + cursor + d) == ParsePage(limit, cursor)
  {
    TrimPadded(a, limit, b);
    TrimPadded(c, cursor, d);
  }

  /** Whatever is accepted holds an id of at least one and a limit in range, so it names a position. */
  lemma AcceptedPages(rawLimit: string, rawCursor: string)
    requires ParsePage(rawLimit, rawCursor).Ok?
    ensures var p := ParsePage(rawLimit, rawCursor).value;
      && 1 <= p.limit <= DEFAULT_LIMIT && InRange(p.afterUnix) && InRange(p.afterID) && p.afterID >= 0
      && (p.afterID == 0 <==> Trim(rawCursor) == [])
      && (p.afterID >= 1 ==> ParsePage(PrintInt(p.limit), NextCursor(p.afterUnix, p.afterID, p.limit, p.limit).0) == Ok(p))
  {
    var p := ParsePage(rawLimit, rawCursor).value;
    if p.afterID >= 1 {
      CursorRoundTrip(p.afterUnix, p.afterID, p.limit, p.limit);
    }
  }
}
