/**
 * One line of a dotenv file into a (key, value) entry: the optional `export`
 * prefix, the quote-aware search for the delimiting `=`, key validation and
 * quote stripping.
 */
module LineParser {
  import opened Results
  import opened Text

  datatype Entry = Entry(key: string, value: string)

  /** Why a line was rejected; the Go code reports each as a distinct error message. */
  datatype ParseError = MissingDelimiter | EmptyKey | InvalidKey(key: string)

  // ---------------------------------------------------------------- keys

  predicate IsKeyStart(c: char) { IsLetter(c) || c == '_' }

  predicate IsKeyPart(c: char) { IsLetter(c) || IsDigit(c) || c == '_' }

  /** A valid environment variable name: a letter or `_`, then letters, digits or `_`. */
  predicate ValidKey(key: string)
  {
    |key| > 0 && IsKeyStart(key[0]) && forall i :: 1 <= i < |key| ==> IsKeyPart(key[i])
  }

  /** `isValidEnvKey`: a scan with early returns. */
  method IsValidEnvKey(key: string) returns (ok: bool)
    ensures ok <==> ValidKey(key)
  {
    if key == "" {
      return false;
    }
    var first := key[0];
    if !IsLetter(first) && first != '_' {
      return false;
    }
    var i := 1;
    while i < |key|
      invariant 1 <= i <= |key|
      invariant forall j :: 1 <= j < i ==> IsKeyPart(key[j])
    {
      var c := key[i];
      if !IsLetter(c) && !IsDigit(c) && c != '_' {
        return false;
      }
      i := i + 1;
    }
    return true;
  }

  /** A valid key holds no `=`, no quote character and no white space. */
  lemma ValidKeyIsPlain(key: string)
    requires ValidKey(key)
    ensures forall i :: 0 <= i < |key| ==> key[i] != '=' && key[i] != '"' && key[i] != '\'' && !IsSpace(key[i])
  {
    forall i | 0 <= i < |key|
      ensures key[i] != '=' && key[i] != '"' && key[i] != '\'' && !IsSpace(key[i])
    {
      if i > 0 { assert IsKeyPart(key[i]); }
    }
  }

  // ---------------------------------------------------------------- values

  predicate IsQuote(c: char) { c == '"' || c == '\'' }

  /** Both ends of `v` carry the same quote character. */
  predicate QuotedBothEnds(v: string)
  {
    |v| >= 2 && IsQuote(v[0]) && v[|v| - 1] == v[0]
  }

  /** `unquoteValue`: strips one matching pair of surrounding quotes, nothing else. */
  function Unquote(v: string): (r: string)
    ensures QuotedBothEnds(v) ==> v == [v[0]] + r + [v[0]]
    ensures !QuotedBothEnds(v) ==> r == v
  {
    if |v| >= 2 && ((v[0] == '"' && v[|v| - 1] == '"') || (v[0] == '\'' && v[|v| - 1] == '\'')) then
      v[1..|v| - 1]
    else
      v
  }

  /** Quoting any text with `"` or `'` and stripping the quotes gives the text back verbatim. */
  lemma UnquoteQuoted(q: char, s: string)
    requires IsQuote(q)
    ensures Unquote([q] + s + [q]) == s
  {
    var v := [q] + s + [q];
    assert v[1..|v| - 1] == s;
  }

  /** Only one layer is removed: stripping is the identity on an unquoted result and shortens by exactly two otherwise. */
  lemma UnquoteLength(v: string)
    ensures |Unquote(v)| == |v| - 2 <==> QuotedBothEnds(v)
    ensures |Unquote(v)| == |v| <==> !QuotedBothEnds(v)
  {
  }

  // ---------------------------------------------------------------- delimiter

  /** The scan's quote tracking: outside any quote, or inside a span opened by `open`. */
  datatype QuoteState = Unquoted | Quoted(open: char)

  /** One character of the scan: a quote opens a span, and only the same quote closes it. */
  function Step(st: QuoteState, c: char): (r: QuoteState)
    ensures r != st ==> IsQuote(c)
    ensures st.Quoted? && c != st.open ==> r == st
    ensures st.Unquoted? && IsQuote(c) ==> r == Quoted(c)
  {
    if IsQuote(c) then
      match st
      case Unquoted => Quoted(c)
      case Quoted(q) => if c == q then Unquoted else st
    else
      st
  }

  /** The quote state after scanning the whole of `s` from an unquoted start. */
  function StateAfter(s: string): QuoteState
  {
    if s == [] then Unquoted else Step(StateAfter(s[..|s| - 1]), s[|s| - 1])
  }

  /** Position `i` of `s` holds an `=` that is not inside a quoted span. */
  predicate DelimiterAt(s: string, i: int)
  {
    0 <= i < |s| && s[i] == '=' && StateAfter(s[..i]) == Unquoted
  }

  lemma StateAfterStep(s: string, i: nat)
    requires i < |s|
    ensures StateAfter(s[..i + 1]) == Step(StateAfter(s[..i]), s[i])
  {
    assert s[..i + 1][..i] == s[..i];
  }

  /** The scan from position `i` on, in quote state `st`: the first unquoted `=` it meets. */
  function DelimiterFrom(s: string, i: nat, st: QuoteState): (r: Option<nat>)
    requires i <= |s|
    ensures r.Some? ==> i <= r.value < |s| && s[r.value] == '='
    decreases |s| - i
  {
    if i == |s| then None
    else if s[i] == '=' && st == Unquoted then Some(i)
    else DelimiterFrom(s, i + 1, Step(st, s[i]))
  }

  /** The first `=` of `s` outside every quoted span, if there is one. */
  function FirstDelimiter(s: string): (r: Option<nat>)
    ensures r.Some? ==> r.value < |s| && s[r.value] == '='
  {
    DelimiterFrom(s, 0, Unquoted)
  }

  lemma {:induction false} DelimiterFromIsFirst(s: string, i: nat, st: QuoteState)
    requires i <= |s| && st == StateAfter(s[..i])
    requires forall j :: 0 <= j < i ==> !DelimiterAt(s, j)
    ensures var r := DelimiterFrom(s, i, st);
            (r.Some? ==> DelimiterAt(s, r.value) && forall j :: 0 <= j < r.value ==> !DelimiterAt(s, j)) &&
            (r.None? ==> forall j :: 0 <= j < |s| ==> !DelimiterAt(s, j))
    decreases |s| - i
  {
    if i < |s| && !(s[i] == '=' && st == Unquoted) {
      StateAfterStep(s, i);
      DelimiterFromIsFirst(s, i + 1, Step(st, s[i]));
    }
  }

  /** `FirstDelimiter` finds the first `=` outside quotes, and finds none only when there is none. */
  lemma FirstDelimiterIsFirst(s: string)
    ensures var r := FirstDelimiter(s);
            (r.Some? ==> DelimiterAt(s, r.value) && forall j :: 0 <= j < r.value ==> !DelimiterAt(s, j)) &&
            (r.None? ==> forall j :: 0 <= j < |s| ==> !DelimiterAt(s, j))
  {
    assert s[..0] == [];
    DelimiterFromIsFirst(s, 0, Unquoted);
  }

  // ---------------------------------------------------------------- lines

  /** The entry a line denotes, or why it denotes none. */
  function LineEntry(line: string): (r: Result<Entry, ParseError>)
    ensures r.Ok? ==> ValidKey(r.value.key)
  {
    BodyEntry(TrimPrefix(line, "export"))
  }

  /** The entry denoted by a line whose `export` prefix, if any, is already gone. */
  function BodyEntry(body: string): (r: Result<Entry, ParseError>)
    ensures r.Ok? ==> ValidKey(r.value.key)
  {
    match FirstDelimiter(body)
    case None => Fail(MissingDelimiter)
    case Some(eq) =>
      var key := TrimSpace(body[..eq]);
      var value := TrimSpace(body[eq + 1..]);
      if key == "" then Fail(EmptyKey)
      else if !ValidKey(key) then Fail(InvalidKey(key))
      else Ok(Entry(key, Unquote(value)))
  }

  /**
   * The scan of `parseLine` for the delimiter: the index of the first `=`
   * outside quotes, or -1 when there is none.
   */
  method FindDelimiter(body: string) returns (equalsIndex: int)
    ensures equalsIndex == -1 ==> FirstDelimiter(body) == None
    ensures equalsIndex != -1 ==> FirstDelimiter(body) == Some(equalsIndex)
  {
    equalsIndex := -1;
    var inQuotes := false;
    var quoteChar: char := ' ';
    var i := 0;
    while i < |body|
      invariant 0 <= i <= |body|
      invariant (if inQuotes then Quoted(quoteChar) else Unquoted) == StateAfter(body[..i])
      invariant forall j :: 0 <= j < i ==> !DelimiterAt(body, j)
    {
      var c := body[i];
      StateAfterStep(body, i);
      if c == '"' || c == '\'' {
        if !inQuotes {
          inQuotes := true;
          quoteChar := c;
        } else if c == quoteChar {
          inQuotes := false;
        }
      } else if c == '=' && !inQuotes {
        assert DelimiterAt(body, i);
        equalsIndex := i;
        break;
      }
      i := i + 1;
    }
    FirstDelimiterIsFirst(body);
  }

  /**
   * `parseLine`: strips `export`, scans for the first unquoted `=` tracking
   * the opening quote, splits and trims there, validates the key and
   * unquotes the value. On failure both strings are empty.
   */
  method ParseLine(line: string) returns (key: string, value: string, err: Option<ParseError>)
    ensures err.None? ==> LineEntry(line) == Ok(Entry(key, value))
    ensures err.Some? ==> LineEntry(line) == Fail(err.value) && key == "" && value == ""
  {
    var body := TrimPrefix(line, "export");
    assert LineEntry(line) == BodyEntry(body);
    var equalsIndex := FindDelimiter(body);
    if equalsIndex == -1 {
      return "", "", Some(MissingDelimiter);
    }

    key := TrimSpace(body[..equalsIndex]);
    value := TrimSpace(body[equalsIndex + 1..]);

    if key == "" {
      return "", "", Some(EmptyKey);
    }
    var valid := IsValidEnvKey(key);
    if !valid {
      return "", "", Some(InvalidKey(key));
    }

    value := Unquote(value);
    err := None;
  }

  // ---------------------------------------------------------------- properties

  /** A text with no quote and no `=` leaves the scan unquoted and holds no delimiter. */
  lemma {:induction false} PlainStaysUnquoted(s: string)
    requires forall i :: 0 <= i < |s| ==> s[i] != '=' && !IsQuote(s[i])
    ensures StateAfter(s) == Unquoted
  {
    if s != [] {
      PlainStaysUnquoted(s[..|s| - 1]);
    }
  }

  /** After a plain key, the `=` that follows is the first unquoted one, whatever comes after it. */
  lemma DelimiterAfterPlain(k: string, rest: string)
    requires forall i :: 0 <= i < |k| ==> k[i] != '=' && !IsQuote(k[i])
    ensures FirstDelimiter(k + "=" + rest) == Some(|k|)
  {
    var s := k + "=" + rest;
    assert s[..|k|] == k;
    PlainStaysUnquoted(k);
    FirstDelimiterIsFirst(s);
    assert DelimiterAt(s, |k|);
    forall j | 0 <= j < |k| ensures !DelimiterAt(s, j) {
      assert s[j] == k[j];
    }
  }

  /** A line whose text after `export` is a plain head, `=`, and anything, splits at that `=`. */
  lemma EntryOfSplit(line: string, head: string, rest: string)
    requires TrimPrefix(line, "export") == head + "=" + rest
    requires forall i :: 0 <= i < |head| ==> head[i] != '=' && !IsQuote(head[i])
    requires ValidKey(TrimSpace(head))
    ensures LineEntry(line) == Ok(Entry(TrimSpace(head), Unquote(TrimSpace(rest))))
  {
    var body := head + "=" + rest;
    DelimiterAfterPlain(head, rest);
    assert body[..|head|] == head;
    assert body[|head| + 1..] == rest;
  }

  /** A text starting with a valid key that is not itself `export...` does not start with `export`. */
  lemma NoExportPrefix(k: string, tail: string)
    requires ValidKey(k) && !HasPrefix(k, "export")
    requires tail != [] && !IsKeyPart(tail[0])
    ensures !HasPrefix(k + tail, "export")
  {
    var s := k + tail;
    if |k| < 6 {
      assert s[|k|] == tail[0];
      assert IsKeyPart("export"[|k|]);
    } else {
      assert s[..6] == k[..6];
    }
  }

  /** Lines that agree once `export` is stripped denote the same entry. */
  lemma SameBodySameEntry(line: string, other: string)
    requires TrimPrefix(line, "export") == TrimPrefix(other, "export")
    ensures LineEntry(line) == LineEntry(other)
  {
  }

  /** The text before the `=` of a spaced line, white space and a valid key, holds no `=` and no quote. */
  lemma SpacedHeadPlain(pre: string, k: string, a: string)
    requires ValidKey(k) && AllSpace(pre) && AllSpace(a)
    ensures forall i :: 0 <= i < |pre + k + a| ==> (pre + k + a)[i] != '=' && !IsQuote((pre + k + a)[i])
  {
    var head := pre + k + a;
    ValidKeyIsPlain(k);
    forall i | 0 <= i < |head| ensures head[i] != '=' && !IsQuote(head[i]) {
      if i < |pre| {
        assert head[i] == pre[i];
      } else if i < |pre| + |k| {
        assert head[i] == k[i - |pre|];
      } else {
        assert head[i] == a[i - |pre| - |k|];
      }
    }
  }

  /** Stripping `export` from a spaced line leaves exactly the spaced assignment. */
  lemma SpacedExport(pre: string, k: string, a: string, rest: string, exported: bool)
    requires ValidKey(k) && AllSpace(pre) && AllSpace(a)
    requires !exported ==> pre != [] || !HasPrefix(k, "export")
    ensures TrimPrefix((if exported then "export" else "") + (pre + k + a + "=" + rest), "export")
         == pre + k + a + "=" + rest
  {
    var body := pre + k + a + "=" + rest;
    var line := (if exported then "export" else "") + body;
    if exported {
      assert line[..6] == "export";
      assert line[6..] == body;
    } else if pre != [] {
      assert line == body && body[0] == pre[0];
    } else if a != [] {
      assert line == k + (a + "=" + rest);
      ValidKeyIsPlain(k);
      NoExportPrefix(k, a + "=" + rest);
    } else {
      assert line == k + ("=" + rest);
      NoExportPrefix(k, "=" + rest);
    }
  }

  /**
   * White space around the key, around `=` and after the value is trimmed,
   * and a leading `export` is dropped: `export K = V ` parses like `K=V`.
   */
  lemma RoundTripSpaced(pre: string, k: string, a: string, b: string, v: string, post: string, exported: bool)
    requires ValidKey(k) && Trimmed(v)
    requires AllSpace(pre) && AllSpace(a) && AllSpace(b) && AllSpace(post)
    requires !exported ==> pre != [] || !HasPrefix(k, "export")
    ensures LineEntry((if exported then "export" else "") + (pre + k + a + "=" + (b + v + post)))
         == Ok(Entry(k, Unquote(v)))
  {
    var head, rest := pre + k + a, b + v + post;
    var line := (if exported then "export" else "") + (head + "=" + rest);
    SpacedExport(pre, k, a, rest, exported);
    SpacedHeadPlain(pre, k, a);
    TrimSpaceAround(pre, k, a);
    TrimSpaceAround(b, v, post);
    EntryOfSplit(line, head, rest);
  }

  /**
   * Round trip: a valid key not starting with `export`, then `=`, then a value
   * with no surrounding white space, parses back to the key and the unquoted
   * value. The value may contain further `=` and quotes.
   */
  lemma RoundTrip(k: string, v: string)
    requires ValidKey(k) && !HasPrefix(k, "export") && Trimmed(v)
    ensures LineEntry(k + "=" + v) == Ok(Entry(k, Unquote(v)))
  {
    var line := k + "=" + v;
    assert line == k + ("=" + v);
    NoExportPrefix(k, "=" + v);
    ValidKeyIsPlain(k);
    TrimSpaceTrimmed(k);
    TrimSpaceTrimmed(v);
    EntryOfSplit(line, k, v);
  }

  /** A quoted value comes back as the text between the quotes, whatever it holds, `=` and the other quote included. */
  lemma RoundTripQuoted(k: string, q: char, inner: string)
    requires ValidKey(k) && !HasPrefix(k, "export") && IsQuote(q)
    ensures LineEntry(k + "=" + ([q] + inner + [q])) == Ok(Entry(k, inner))
  {
    var v := [q] + inner + [q];
    assert v[0] == v[|v| - 1] == q;
    RoundTrip(k, v);
    UnquoteQuoted(q, inner);
  }

  /** One literal `export` is stripped, with no space required after it. */
  lemma ExportStripped(s: string)
    requires !HasPrefix(s, "export")
    ensures LineEntry("export" + s) == LineEntry(s)
  {
    var line := "export" + s;
    assert line[..6] == "export";
    assert line[6..] == s;
    SameBodySameEntry(line, s);
  }

  /** Inside a span opened by quote `q`, every character but `q` keeps the span open. */
  lemma {:induction false} InsideQuotes(q: char, x: string, i: nat)
    requires IsQuote(q) && i <= |x|
    requires forall k :: 0 <= k < |x| ==> x[k] != q
    ensures StateAfter([q] + x[..i]) == Quoted(q)
  {
    if i == 0 {
      assert [q] + x[..0] == [q];
      assert [q][..0] == [];
    } else {
      InsideQuotes(q, x, i - 1);
      var t := [q] + x[..i];
      assert t[..|t| - 1] == [q] + x[..i - 1];
    }
  }

  /** Text that opens with a quote and never closes it holds no delimiter. */
  lemma UnclosedQuoteHidesDelimiters(q: char, x: string)
    requires IsQuote(q)
    requires forall k :: 0 <= k < |x| ==> x[k] != q
    ensures FirstDelimiter([q] + x) == None
  {
    var s := [q] + x;
    FirstDelimiterIsFirst(s);
    forall j | 0 <= j < |s| ensures !DelimiterAt(s, j) {
      if j > 0 {
        InsideQuotes(q, x, j - 1);
        assert s[..j] == [q] + x[..j - 1];
      }
    }
  }

  /**
   * An `=` inside a quoted span does not split the line: after a span
   * `q x q` the first `=` that follows is the delimiter.
   */
  lemma QuotedSpanSkipped(q: char, x: string, rest: string)
    requires IsQuote(q)
    requires forall k :: 0 <= k < |x| ==> x[k] != q
    ensures FirstDelimiter([q] + x + [q] + "=" + rest) == Some(|x| + 2)
  {
    var s := [q] + x + [q] + "=" + rest;
    FirstDelimiterIsFirst(s);
    forall j | 0 <= j < |x| + 2 ensures !DelimiterAt(s, j) {
      if 0 < j <= |x| + 1 {
        InsideQuotes(q, x, j - 1);
        assert s[..j] == [q] + x[..j - 1];
      }
    }
    InsideQuotes(q, x, |x|);
    assert s[..|x| + 1] == [q] + x[..|x|];
    StateAfterStep(s, |x| + 1);
    assert s[..|x| + 2] == s[..|x| + 2];
    assert DelimiterAt(s, |x| + 2);
  }

  /** A key that is non-empty but invalid once trimmed is reported as that trimmed key. */
  lemma InvalidKeyFails(body: string, eq: nat)
    requires FirstDelimiter(body) == Some(eq)
    requires TrimSpace(body[..eq]) != [] && !ValidKey(TrimSpace(body[..eq]))
    ensures BodyEntry(body) == Fail(InvalidKey(TrimSpace(body[..eq])))
  {
  }

  /** A key written in quotes is not a valid key: the quotes stay part of the key text. */
  lemma QuotedKeyRejected(q: char, x: string, rest: string)
    requires IsQuote(q)
    requires forall k :: 0 <= k < |x| ==> x[k] != q
    ensures BodyEntry([q] + x + [q] + "=" + rest) == Fail(InvalidKey([q] + x + [q]))
  {
    var s := [q] + x + [q] + "=" + rest;
    QuotedSpanSkipped(q, x, rest);
    var key := [q] + x + [q];
    assert s[..|x| + 2] == key;
    assert key[0] == key[|key| - 1] == q;
    TrimSpaceTrimmed(key);
    InvalidKeyFails(s, |x| + 2);
  }

  /** A line whose text before its delimiter is only white space has an empty key. */
  lemma BlankKeyFails(line: string, head: string, rest: string)
    requires TrimPrefix(line, "export") == head + "=" + rest
    requires AllSpace(head)
    ensures LineEntry(line) == Fail(EmptyKey)
  {
    forall i | 0 <= i < |head| ensures head[i] != '=' && !IsQuote(head[i]) {
      assert IsSpace(head[i]);
    }
    var body := head + "=" + rest;
    DelimiterAfterPlain(head, rest);
    assert body[..|head|] == head;
    assert head + [] + [] == head;
    TrimSpaceAround(head, [], []);
  }

  /** A line with no unquoted `=` is rejected as missing its delimiter. */
  lemma NoDelimiterFails(line: string)
    requires forall j :: 0 <= j < |TrimPrefix(line, "export")| ==> !DelimiterAt(TrimPrefix(line, "export"), j)
    ensures LineEntry(line) == Fail(MissingDelimiter)
  {
    FirstDelimiterIsFirst(TrimPrefix(line, "export"));
  }

  /** Every failure of `LineEntry` is one of the three the code distinguishes, each for its own reason. */
  lemma FailureReasons(line: string)
    ensures LineEntry(line) == Fail(MissingDelimiter) <==> FirstDelimiter(TrimPrefix(line, "export")).None?
    ensures LineEntry(line).Fail? && LineEntry(line).error.InvalidKey? ==>
              LineEntry(line).error.key != "" && !ValidKey(LineEntry(line).error.key)
  {
  }

  /**
   * Which outcome a line has, in terms of its delimiter and trimmed key: it is
   * accepted exactly when there is a delimiter and the trimmed text before it
   * is a valid key; the empty-key and invalid-key errors cover the rest.
   */
  lemma EntryConditions(line: string)
    ensures var body := TrimPrefix(line, "export");
            var d := FirstDelimiter(body);
            (LineEntry(line).Ok? <==> d.Some? && ValidKey(TrimSpace(body[..d.value]))) &&
            (LineEntry(line) == Fail(EmptyKey) <==> d.Some? && TrimSpace(body[..d.value]) == "") &&
            (LineEntry(line).Fail? && LineEntry(line).error.InvalidKey? <==>
               d.Some? && TrimSpace(body[..d.value]) != "" && !ValidKey(TrimSpace(body[..d.value])))
  {
  }

  /** A parsed key never contains `=`, a quote or white space. */
  lemma ParsedKeyIsPlain(line: string)
    requires LineEntry(line).Ok?
    ensures var k := LineEntry(line).value.key;
            |k| > 0 && forall i :: 0 <= i < |k| ==> k[i] != '=' && !IsQuote(k[i]) && !IsSpace(k[i])
  {
    ValidKeyIsPlain(LineEntry(line).value.key);
  }

  // ---------------------------------------------------------------- the Go test table

  lemma ExampleSimple()
    ensures LineEntry("DB_PORT=8080") == Ok(Entry("DB_PORT", "8080"))
  {
    var k, v := "DB_PORT", "8080";
    assert k + "=" + v == "DB_PORT=8080";
    RoundTrip(k, v);
  }

  lemma DoubleQuotedText()
    ensures "NAME" + "=" + (['"'] + "Alex Edwards" + ['"']) == "NAME=\"Alex Edwards\""
    ensures "CONN_STR" + "=" + (['"'] + "user=pass@host:5432" + ['"']) == "CONN_STR=\"user=pass@host:5432\""
  {
  }

  lemma ExampleDoubleQuoted()
    ensures LineEntry("NAME=\"Alex Edwards\"") == Ok(Entry("NAME", "Alex Edwards"))
  {
    RoundTripQuoted("NAME", '"', "Alex Edwards");
    DoubleQuotedText();
  }

  lemma ExampleEqualsInQuotes()
    ensures LineEntry("CONN_STR=\"user=pass@host:5432\"") == Ok(Entry("CONN_STR", "user=pass@host:5432"))
  {
    RoundTripQuoted("CONN_STR", '"', "user=pass@host:5432");
    DoubleQuotedText();
  }

  lemma ExampleMultipleEquals()
    ensures LineEntry("NAME==John=Doe") == Ok(Entry("NAME", "=John=Doe"))
  {
    var k, v := "NAME", "=John=Doe";
    assert k + "=" + v == "NAME==John=Doe";
    RoundTrip(k, v);
  }

  lemma ExampleEmptyValue()
    ensures LineEntry("DB_PORT=") == Ok(Entry("DB_PORT", ""))
  {
    var k, v := "DB_PORT", "";
    assert k + "=" + v == "DB_PORT=";
    RoundTrip(k, v);
  }

  lemma ExampleExport()
    ensures LineEntry("export NAME=\"John Doe\"") == Ok(Entry("NAME", "John Doe"))
  {
    var pre, k, e, inner := " ", "NAME", "", "John Doe";
    var v := ['"'] + inner + ['"'];
    assert "export" + (pre + k + e + "=" + (e + v + e)) == "export NAME=\"John Doe\"";
    RoundTripSpaced(pre, k, e, e, v, e, true);
    UnquoteQuoted('"', inner);
  }

  lemma ExampleSpaced()
    ensures LineEntry(" KEY = value ") == Ok(Entry("KEY", "value"))
  {
    var sp, k, v := " ", "KEY", "value";
    assert "" + (sp + k + sp + "=" + (sp + v + sp)) == " KEY = value ";
    RoundTripSpaced(sp, k, sp, sp, v, sp, false);
  }

  lemma ExampleMissingDelimiter()
    ensures LineEntry("justvalue") == Fail(MissingDelimiter)
    ensures LineEntry("# comment") == Fail(MissingDelimiter)
  {
    assert "justvalue"[0] != "export"[0];
    NoDelimiterFails("justvalue");
    assert "# comment"[0] != "export"[0];
    NoDelimiterFails("# comment");
  }

  /** `=value` has an empty key, and so does `export=1` once `export` is stripped. */
  lemma ExampleEmptyKey()
    ensures LineEntry("=value") == Fail(EmptyKey)
    ensures LineEntry("export=1") == Fail(EmptyKey)
  {
    assert "=value"[0] != "export"[0];
    assert "=value" == "" + "=" + "value";
    BlankKeyFails("=value", "", "value");
    assert "export=1"[..6] == "export";
    assert "export=1"[6..] == "" + "=" + "1";
    BlankKeyFails("export=1", "", "1");
  }

  /** A line that does not start with `e` cannot start with `export`, so it is parsed whole. */
  lemma NotExportLine(line: string)
    requires line != [] && line[0] != 'e'
    ensures LineEntry(line) == BodyEntry(line)
  {
    assert |line| >= 6 ==> line[..6][0] == line[0];
  }

  lemma QuotedKeyText()
    ensures ['\''] + "NAME=" + ['\''] + "=" + "John=Doe" == "'NAME='=John=Doe"
    ensures ['\''] + "NAME=" + ['\''] == "'NAME='"
  {
  }

  lemma ExampleQuotedKey()
    ensures LineEntry("'NAME='=John=Doe") == Fail(InvalidKey("'NAME='"))
  {
    QuotedKeyRejected('\'', "NAME=", "John=Doe");
    QuotedKeyText();
    NotExportLine("'NAME='=John=Doe");
  }

  /** `"A=x` never closes its quote, so it has no delimiter at all. */
  lemma ExampleUnclosedQuote()
    ensures LineEntry("\"A=x") == Fail(MissingDelimiter)
  {
    assert "\"A=x"[0] != "export"[0];
    UnclosedQuoteHidesDelimiters('"', "A=x");
    assert ['"'] + "A=x" == "\"A=x";
  }

  /** Keys of the validator's test table. */
  lemma ExampleKeys()
    ensures ValidKey("PORT") && ValidKey("API_KEY") && ValidKey("DEBUG") && ValidKey("_INTERNAL") && ValidKey("Var1") && ValidKey("A")
    ensures !ValidKey("") && !ValidKey("123") && !ValidKey("-") && !ValidKey("my-var")
    ensures !ValidKey(" ") && !ValidKey("a b") && !ValidKey(".hidden")
  {
    assert "my-var"[2] == '-';
    assert "a b"[1] == ' ';
  }
}
