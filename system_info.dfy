/** Parsers of Linux system information: /proc/uptime, /proc/stat, /proc/meminfo and the
    output of `df -k`, each given as the text the health application reads. Digits are the
    ASCII decimal digits; whitespace is the Unicode White_Space set that Rust's
    `split_whitespace` and `trim` use. All errors are of kind InvalidData and carry the
    message the application gives them. */
module SystemInfo {

  import opened Wrappers
  import opened Text

  // ------------------------------------------------------------------------------------
  // Digit stripping and number fields

  const I32_MIN: int := -0x8000_0000
  const I32_MAX: int := 0x7FFF_FFFF

  type I32 = x: int | I32_MIN <= x <= I32_MAX

  /** The character filter the parsers remove with `replace`. */
  predicate NotNumeric(c: char) {
    !IsDigit(c)
  }

  predicate NoDigits(s: string) {
    forall i :: 0 <= i < |s| ==> NotNumeric(s[i])
  }

  /** `s.replace(not_numeric, "")`: the digits of `s`, in order. */
  function StripNonNumeric(s: string): (r: string)
    ensures AllDigits(r)
    ensures |r| <= |s|
    ensures AllDigits(s) ==> r == s
    ensures NoDigits(s) ==> r == []
  {
    if s == [] then []
    else
      assert AllDigits(s) ==> AllDigits(s[1..]) by {
        if AllDigits(s) {
          forall i | 0 <= i < |s[1..]| ensures IsDigit(s[1..][i]) {
            assert s[1..][i] == s[i + 1];
          }
        }
      }
      assert NoDigits(s) ==> NoDigits(s[1..]) by {
        if NoDigits(s) {
          forall i | 0 <= i < |s[1..]| ensures NotNumeric(s[1..][i]) {
            assert s[1..][i] == s[i + 1];
          }
        }
      }
      (if NotNumeric(s[0]) then [] else [s[0]]) + StripNonNumeric(s[1..])
  }

  /** Stripping distributes over concatenation. */
  lemma {:induction false} StripAppend(a: string, b: string)
    ensures StripNonNumeric(a + b) == StripNonNumeric(a) + StripNonNumeric(b)
  {
    if a != [] {
      var h: string := if NotNumeric(a[0]) then [] else [a[0]];
      assert (a + b)[0] == a[0];
      assert (a + b)[1..] == a[1..] + b;
      StripAppend(a[1..], b);
      calc {
        StripNonNumeric(a + b);
        h + StripNonNumeric(a[1..] + b);
        h + (StripNonNumeric(a[1..]) + StripNonNumeric(b));
        (h + StripNonNumeric(a[1..])) + StripNonNumeric(b);
        StripNonNumeric(a) + StripNonNumeric(b);
      }
    } else {
      assert a + b == b;
    }
  }

  /** A digit string between two digit-free strings survives stripping alone. */
  lemma StripAround(pre: string, digits: string, post: string)
    requires NoDigits(pre) && AllDigits(digits) && NoDigits(post)
    ensures StripNonNumeric(pre + digits + post) == digits
  {
    StripAppend(pre + digits, post);
    StripAppend(pre, digits);
  }

  /** `field.replace(not_numeric, "").parse::<i32>()`: the remaining digits must be
      non-empty and their value must fit an i32. */
  function ParseI32(field: string): (r: Option<I32>)
    ensures r.Some? ==> 0 <= r.value
    ensures StripNonNumeric(field) == [] ==> r.None?
  {
    var d := StripNonNumeric(field);
    if d == [] || DecimalValue(d) > I32_MAX then None else Some(DecimalValue(d))
  }

  /** `field.replace(not_numeric, "").parse::<f32>()`, with the digits read exactly: any
      non-empty digit string parses. */
  function ParseFloatField(field: string): (r: Option<nat>)
    ensures r.Some? <==> StripNonNumeric(field) != []
  {
    var d := StripNonNumeric(field);
    if d == [] then None else Some(DecimalValue(d))
  }

  /** A rendered natural surrounded by digit-free text parses to that natural exactly when
      it fits an i32. */
  lemma ParseI32Around(pre: string, n: nat, post: string)
    requires NoDigits(pre) && NoDigits(post)
    ensures ParseI32(pre + Decimal(n) + post) == if n <= I32_MAX then Some(n) else None
  {
    StripAround(pre, Decimal(n), post);
    DecimalRoundTrip(n);
  }

  lemma ParseFloatAround(pre: string, n: nat, post: string)
    requires NoDigits(pre) && NoDigits(post)
    ensures ParseFloatField(pre + Decimal(n) + post) == Some(n)
  {
    StripAround(pre, Decimal(n), post);
    DecimalRoundTrip(n);
  }

  // ------------------------------------------------------------------------------------
  // Whitespace-separated fields

  /** Unicode White_Space, the set `char::is_whitespace` tests. */
  predicate IsWhitespace(c: char) {
    || ('\t' <= c <= '\r') || c == ' ' || c == '\U{85}' || c == '\U{A0}' || c == '\U{1680}'
    || ('\U{2000}' <= c <= '\U{200A}') || c == '\U{2028}' || c == '\U{2029}'
    || c == '\U{202F}' || c == '\U{205F}' || c == '\U{3000}'
  }

  /** A field: non-empty, no whitespace. */
  predicate IsWord(w: string) {
    w != [] && forall i :: 0 <= i < |w| ==> !IsWhitespace(w[i])
  }

  /** Every element is a field. */
  predicate AllWords(ws: seq<string>) {
    ws == [] || (IsWord(ws[0]) && AllWords(ws[1..]))
  }

  lemma {:induction false} AllWordsOf(ws: seq<string>)
    requires forall k :: 0 <= k < |ws| ==> IsWord(ws[k])
    ensures AllWords(ws)
  {
    if ws != [] {
      assert forall k :: 0 <= k < |ws[1..]| ==> ws[1..][k] == ws[k + 1];
      AllWordsOf(ws[1..]);
    }
  }

  /** The number of whitespace characters `s` starts with. */
  function LeadingSpace(s: string): (n: nat)
    ensures n <= |s|
    ensures forall i :: 0 <= i < n ==> IsWhitespace(s[i])
    ensures n < |s| ==> !IsWhitespace(s[n])
  {
    if s != [] && IsWhitespace(s[0]) then
      var n := 1 + LeadingSpace(s[1..]);
      assert forall i :: 1 <= i < n ==> s[i] == s[1..][i - 1];
      n
    else 0
  }

  /** The number of non-whitespace characters `s` starts with. */
  function WordLength(s: string): (n: nat)
    ensures n <= |s|
    ensures forall i :: 0 <= i < n ==> !IsWhitespace(s[i])
    ensures n < |s| ==> IsWhitespace(s[n])
  {
    if s != [] && !IsWhitespace(s[0]) then
      var n := 1 + WordLength(s[1..]);
      assert forall i :: 1 <= i < n ==> s[i] == s[1..][i - 1];
      n
    else 0
  }

  /** `s.split_whitespace()`: the maximal runs of non-whitespace, in order. */
  function Fields(s: string): (ws: seq<string>)
    ensures AllWords(ws)
    decreases |s|
  {
    var k := LeadingSpace(s);
    if k == |s| then []
    else
      var t := s[k..];
      var n := WordLength(t);
      FirstWordIsWord(s);
      AllWordsCons(t[..n], Fields(t[n..]));
      [t[..n]] + Fields(t[n..])
  }

  /** After the leading whitespace, a non-empty text starts with a field. */
  lemma FirstWordIsWord(s: string)
    requires LeadingSpace(s) < |s|
    ensures var t := s[LeadingSpace(s)..]; 0 < WordLength(t) && IsWord(t[..WordLength(t)])
  {
    var t := s[LeadingSpace(s)..];
    assert t[0] == s[LeadingSpace(s)];
    var w := t[..WordLength(t)];
    assert forall i :: 0 <= i < |w| ==> w[i] == t[i];
  }

  lemma AllWordsCons(w: string, ws: seq<string>)
    requires IsWord(w) && AllWords(ws)
    ensures AllWords([w] + ws)
  {
    assert ([w] + ws)[1..] == ws;
  }

  /** A run of `n` spaces. */
  function Spaces(n: nat): (s: string)
    ensures |s| == n && forall i :: 0 <= i < n ==> s[i] == ' '
  {
    seq(n, i => ' ')
  }

  /** `pad` gives a width of at least one space to each of the gaps between `n` words. */
  predicate Gaps(pad: seq<nat>, n: nat) {
    n <= |pad| + 1 && forall i :: 0 <= i < |pad| ==> pad[i] > 0
  }

  /** Words laid out in columns: word i is followed by `pad[i]` spaces, the last by nothing.
      The kernel writes "cpu" followed by two spaces, and df pads its columns to line up. */
  function JoinPadded(ws: seq<string>, pad: seq<nat>): string
    requires |ws| <= |pad| + 1
  {
    if ws == [] then ""
    else if |ws| == 1 then ws[0]
    else ws[0] + Spaces(pad[0]) + JoinPadded(ws[1..], pad[1..])
  }

  /** The characterisation in WordLength's contract fixes its value. */
  lemma WordLengthIs(s: string, n: nat)
    requires n <= |s|
    requires forall i :: 0 <= i < n ==> !IsWhitespace(s[i])
    requires n < |s| ==> IsWhitespace(s[n])
    ensures WordLength(s) == n
  {
  }

  lemma LeadingSpaceIs(s: string, n: nat)
    requires n <= |s|
    requires forall i :: 0 <= i < n ==> IsWhitespace(s[i])
    requires n < |s| ==> !IsWhitespace(s[n])
    ensures LeadingSpace(s) == n
  {
  }

  lemma WordLengthOfWord(w: string, rest: string)
    requires IsWord(w)
    requires rest == [] || IsWhitespace(rest[0])
    ensures WordLength(w + rest) == |w|
  {
    var s := w + rest;
    assert forall i :: 0 <= i < |w| ==> s[i] == w[i];
    assert |w| < |s| ==> s[|w|] == rest[0];
    WordLengthIs(s, |w|);
  }

  /** A word followed by whitespace or nothing is the first field. */
  lemma FieldsOfWordThen(w: string, rest: string)
    requires IsWord(w)
    requires rest == [] || IsWhitespace(rest[0])
    ensures Fields(w + rest) == [w] + Fields(rest)
  {
    var s := w + rest;
    assert s[0] == w[0];
    assert LeadingSpace(s) == 0;
    assert s[0..] == s;
    WordLengthOfWord(w, rest);
    assert s[..|w|] == w;
    assert s[|w|..] == rest;
  }

  lemma FieldsAfterSpace(x: string)
    ensures Fields(" " + x) == Fields(x)
  {
    var s := " " + x;
    assert s[1..] == x;
    assert LeadingSpace(s) == 1 + LeadingSpace(x);
    assert s[LeadingSpace(s)..] == x[LeadingSpace(x)..];
  }

  /** Any run of spaces in front of the text adds no field. */
  lemma {:induction false} FieldsAfterSpaces(n: nat, x: string)
    ensures Fields(Spaces(n) + x) == Fields(x)
  {
    if n > 0 {
      assert Spaces(n) + x == " " + (Spaces(n - 1) + x);
      FieldsAfterSpace(Spaces(n - 1) + x);
      FieldsAfterSpaces(n - 1, x);
    } else {
      assert Spaces(n) + x == x;
    }
  }

  lemma FieldsOfJoinStep(ws: seq<string>, pad: seq<nat>)
    requires |ws| > 1 && IsWord(ws[0]) && Gaps(pad, |ws|)
    ensures Fields(JoinPadded(ws, pad)) == [ws[0]] + Fields(JoinPadded(ws[1..], pad[1..]))
  {
    var rest := JoinPadded(ws[1..], pad[1..]);
    assert JoinPadded(ws, pad) == ws[0] + (Spaces(pad[0]) + rest);
    assert (Spaces(pad[0]) + rest)[0] == ' ';
    FieldsOfWordThen(ws[0], Spaces(pad[0]) + rest);
    FieldsAfterSpaces(pad[0], rest);
  }

  /** Splitting words laid out with runs of spaces between them gives back the words,
      however wide each run is. */
  lemma {:induction false} FieldsOfJoin(ws: seq<string>, pad: seq<nat>)
    requires AllWords(ws) && Gaps(pad, |ws|)
    ensures Fields(JoinPadded(ws, pad)) == ws
  {
    if |ws| == 1 {
      FieldsOfWordThen(ws[0], "");
      assert ws[0] + "" == ws[0];
    } else if |ws| > 1 {
      FieldsOfJoinStep(ws, pad);
      FieldsOfJoin(ws[1..], pad[1..]);
      assert ws == [ws[0]] + ws[1..];
    }
  }

  /** `str::trim`: drop leading and trailing whitespace. */
  function Trim(s: string): string {
    TrimEnd(s[LeadingSpace(s)..])
  }

  function TrimEnd(s: string): string {
    if s != [] && IsWhitespace(s[|s| - 1]) then TrimEnd(s[..|s| - 1]) else s
  }

  lemma FieldsAfterLeadingSpace(s: string)
    ensures Fields(s[LeadingSpace(s)..]) == Fields(s)
  {
    var u := s[LeadingSpace(s)..];
    assert LeadingSpace(u) == 0;
    assert u[0..] == u;
  }

  /** Appending whitespace keeps the leading space, or extends it when all is space. */
  lemma LeadingSpaceSnoc(x: string, c: char)
    requires IsWhitespace(c)
    ensures LeadingSpace(x + [c]) == if LeadingSpace(x) == |x| then |x| + 1 else LeadingSpace(x)
  {
    var s := x + [c];
    assert forall i :: 0 <= i < |x| ==> s[i] == x[i];
    assert s[|x|] == c;
    if LeadingSpace(x) == |x| {
      LeadingSpaceIs(s, |s|);
    } else {
      LeadingSpaceIs(s, LeadingSpace(x));
    }
  }

  /** Appending whitespace to a string that starts with a word keeps that word. */
  lemma WordLengthSnoc(t: string, c: char)
    requires IsWhitespace(c)
    ensures WordLength(t + [c]) == WordLength(t)
  {
    var n := WordLength(t);
    assert forall i :: 0 <= i < |t| ==> (t + [c])[i] == t[i];
    assert (t + [c])[|t|] == c;
    WordLengthIs(t + [c], n);
  }

  /** A whitespace character at the end never changes the fields. */
  lemma {:induction false} FieldsSpaceAtEnd(x: string, c: char)
    requires IsWhitespace(c)
    ensures Fields(x + [c]) == Fields(x)
    decreases |x|
  {
    var s := x + [c];
    var l := LeadingSpace(x);
    LeadingSpaceSnoc(x, c);
    if l == |x| {
      assert s[|s|..] == [];
      assert x[l..] == [];
    } else {
      var t := x[l..];
      assert s[l..] == t + [c];
      var n := WordLength(t);
      WordLengthSnoc(t, c);
      assert (t + [c])[..n] == t[..n];
      assert (t + [c])[n..] == t[n..] + [c];
      FieldsSpaceAtEnd(t[n..], c);
    }
  }

  lemma {:induction false} FieldsOfTrimEnd(s: string)
    ensures Fields(TrimEnd(s)) == Fields(s)
    decreases |s|
  {
    if s != [] && IsWhitespace(s[|s| - 1]) {
      var init := s[..|s| - 1];
      var c := s[|s| - 1];
      assert TrimEnd(s) == TrimEnd(init);
      FieldsOfTrimEnd(init);
      assert init + [c] == s;
      FieldsSpaceAtEnd(init, c);
    }
  }

  /** `trim` before `split_whitespace` changes nothing. */
  lemma FieldsOfTrim(s: string)
    ensures Fields(Trim(s)) == Fields(s)
  {
    FieldsOfTrimEnd(s[LeadingSpace(s)..]);
    FieldsAfterLeadingSpace(s);
  }

  // ------------------------------------------------------------------------------------
  // Lines

  /** The index of the first newline, or the length when there is none. */
  function LineEnd(s: string): (n: nat)
    ensures n <= |s|
    ensures forall i :: 0 <= i < n ==> s[i] != '\n'
    ensures n < |s| ==> s[n] == '\n'
  {
    if s != [] && s[0] != '\n' then
      var n := 1 + LineEnd(s[1..]);
      assert forall i :: 1 <= i < n ==> s[i] == s[1..][i - 1];
      n
    else 0
  }

  lemma LineEndIs(s: string, n: nat)
    requires n <= |s|
    requires forall i :: 0 <= i < n ==> s[i] != '\n'
    requires n < |s| ==> s[n] == '\n'
    ensures LineEnd(s) == n
  {
  }

  function DropCR(l: string): string {
    if l != [] && l[|l| - 1] == '\r' then l[..|l| - 1] else l
  }

  /** `str::lines`: split at "\n" or "\r\n"; the final line ending is optional, and a final
      line's lone trailing "\r" stays. */
  function Lines(s: string): seq<string>
    decreases |s|
  {
    if s == [] then []
    else
      var n := LineEnd(s);
      if n == |s| then [s] else [DropCR(s[..n])] + Lines(s[n + 1..])
  }

  /** A line that `lines` can give back unchanged. */
  predicate IsLine(l: string) {
    (forall i :: 0 <= i < |l| ==> l[i] != '\n') && DropCR(l) == l
  }

  /** Every element is a line. */
  predicate AllLines(ls: seq<string>) {
    ls == [] || (IsLine(ls[0]) && AllLines(ls[1..]))
  }

  lemma {:induction false} AllLinesAppend(a: seq<string>, b: seq<string>)
    requires AllLines(a) && AllLines(b)
    ensures AllLines(a + b)
  {
    if a == [] {
      assert a + b == b;
    } else {
      assert (a + b)[0] == a[0];
      assert (a + b)[1..] == a[1..] + b;
      AllLinesAppend(a[1..], b);
    }
  }

  /** Lines each ended by a newline. */
  function JoinLines(ls: seq<string>): string {
    if ls == [] then "" else ls[0] + "\n" + JoinLines(ls[1..])
  }

  lemma {:induction false} LinesOfJoin(ls: seq<string>)
    requires AllLines(ls)
    ensures Lines(JoinLines(ls)) == ls
  {
    if ls != [] {
      var s := JoinLines(ls);
      var l := ls[0];
      assert s == l + ("\n" + JoinLines(ls[1..]));
      assert forall i :: 0 <= i < |l| ==> s[i] == l[i];
      assert s[|l|] == '\n';
      LineEndIs(s, |l|);
      assert s[..|l|] == l;
      assert s[|l| + 1..] == JoinLines(ls[1..]);
      LinesOfJoin(ls[1..]);
      assert ls == [l] + ls[1..];
    }
  }

  lemma {:induction false} JoinLinesAppend(a: seq<string>, b: seq<string>)
    ensures JoinLines(a + b) == JoinLines(a) + JoinLines(b)
  {
    if a != [] {
      assert (a + b)[1..] == a[1..] + b;
      JoinLinesAppend(a[1..], b);
      assert JoinLines(a + b) == a[0] + "\n" + (JoinLines(a[1..]) + JoinLines(b));
    } else {
      assert a + b == b;
    }
  }

  predicate StartsWith(s: string, prefix: string) {
    |prefix| <= |s| && s[..|prefix|] == prefix
  }

  /** The index of the first line starting with `prefix`, or the count when none does. */
  function FirstWith(lines: seq<string>, prefix: string): (i: nat)
    ensures i <= |lines|
    ensures forall j :: 0 <= j < i ==> !StartsWith(lines[j], prefix)
    ensures i < |lines| ==> StartsWith(lines[i], prefix)
  {
    if lines == [] || StartsWith(lines[0], prefix) then 0
    else
      var i := 1 + FirstWith(lines[1..], prefix);
      assert forall j :: 1 <= j < i ==> lines[j] == lines[1..][j - 1];
      i
  }

  /** `lines.find(|line| line.starts_with(prefix))`. */
  function FindLine(lines: seq<string>, prefix: string): (r: Option<string>)
    ensures r.None? <==> forall j :: 0 <= j < |lines| ==> !StartsWith(lines[j], prefix)
    ensures r.Some? ==> StartsWith(r.value, prefix)
  {
    var i := FirstWith(lines, prefix);
    if i < |lines| then Some(lines[i]) else None
  }

  /** The first match is at the first line that matches, whatever follows it. */
  lemma FirstWithAt(before: seq<string>, line: string, after: seq<string>, prefix: string)
    requires forall j :: 0 <= j < |before| ==> !StartsWith(before[j], prefix)
    requires StartsWith(line, prefix)
    ensures FirstWith(before + [line] + after, prefix) == |before|
  {
    var ls := before + [line] + after;
    var i := FirstWith(ls, prefix);
    assert ls[|before|] == line;
    assert forall j :: 0 <= j < |before| ==> ls[j] == before[j];
  }

  lemma FindLineAt(before: seq<string>, line: string, after: seq<string>, prefix: string)
    requires forall j :: 0 <= j < |before| ==> !StartsWith(before[j], prefix)
    requires StartsWith(line, prefix)
    ensures FindLine(before + [line] + after, prefix) == Some(line)
  {
    FirstWithAt(before, line, after, prefix);
    assert (before + [line] + after)[|before|] == line;
  }

  /** No line break of either kind. */
  predicate NoBreaks(s: string) {
    forall i :: 0 <= i < |s| ==> s[i] != '\n' && s[i] != '\r'
  }

  lemma NoBreaksIsLine(s: string)
    requires NoBreaks(s)
    ensures IsLine(s)
  {
    if s != [] {
      assert s[|s| - 1] != '\r';
    }
  }

  lemma NoBreaksAppend(a: string, b: string)
    requires NoBreaks(a) && NoBreaks(b)
    ensures NoBreaks(a + b)
  {
    assert forall i :: 0 <= i < |a| ==> (a + b)[i] == a[i];
    assert forall i :: |a| <= i < |a + b| ==> (a + b)[i] == b[i - |a|];
  }

  lemma WordNoBreaks(w: string)
    requires IsWord(w)
    ensures NoBreaks(w)
  {
    assert forall i :: 0 <= i < |w| ==> !IsWhitespace(w[i]);
  }

  /** Words laid out with spaces between them form one line. */
  lemma {:induction false} JoinPaddedIsLine(ws: seq<string>, pad: seq<nat>)
    requires AllWords(ws) && |ws| <= |pad| + 1
    ensures NoBreaks(JoinPadded(ws, pad)) && IsLine(JoinPadded(ws, pad))
  {
    if ws != [] {
      WordNoBreaks(ws[0]);
      if |ws| > 1 {
        JoinPaddedIsLine(ws[1..], pad[1..]);
        NoBreaksAppend(ws[0], Spaces(pad[0]));
        NoBreaksAppend(ws[0] + Spaces(pad[0]), JoinPadded(ws[1..], pad[1..]));
      }
    }
    NoBreaksIsLine(JoinPadded(ws, pad));
  }

  /** A rendered natural is a word. */
  lemma DecimalIsWord(n: nat)
    ensures IsWord(Decimal(n))
  {
    var d := Decimal(n);
    assert forall i :: 0 <= i < |d| ==> IsDigit(d[i]);
  }

  lemma ParseI32Decimal(n: nat)
    requires n <= I32_MAX
    ensures ParseI32(Decimal(n)) == Some(n)
  {
    ParseI32Around("", n, "");
    assert "" + Decimal(n) + "" == Decimal(n);
  }

  lemma ParseFloatDecimal(n: nat)
    ensures ParseFloatField(Decimal(n)) == Some(n)
  {
    ParseFloatAround("", n, "");
    assert "" + Decimal(n) + "" == Decimal(n);
  }

  // ------------------------------------------------------------------------------------
  // /proc/uptime

  /** Up time and idle time, read from the digits of each field (see ParseFloatField). */
  datatype Uptime = Uptime(up: nat, idle: nat)

  const UPTIME_FIELDS_ERROR: string := "Incorrect number of fields in /proc/uptime"
  const UPTIME_PARSE_ERROR: string := "Could not parse fields in /proc/uptime"

  /** The two fields of /proc/uptime, each needing at least one digit. */
  function UptimeOfFields(vec: seq<string>): (r: Result<Uptime, string>)
    ensures r == Err(UPTIME_FIELDS_ERROR) <==> |vec| < 2
    ensures r.Ok? <==> (|vec| >= 2 && StripNonNumeric(vec[0]) != [] && StripNonNumeric(vec[1]) != [])
    ensures r.Err? ==> r.error == UPTIME_FIELDS_ERROR || r.error == UPTIME_PARSE_ERROR
  {
    if |vec| < 2 then Err(UPTIME_FIELDS_ERROR)
    else
      match (ParseFloatField(vec[0]), ParseFloatField(vec[1]))
      case (Some(up), Some(idle)) => Ok(Uptime(up, idle))
      case _ => Err(UPTIME_PARSE_ERROR)
  }

  /** `up_time` on the contents of /proc/uptime: the fields of the trimmed text. */
  function UpTime(data: string): Result<Uptime, string> {
    UptimeOfFields(Fields(Trim(data)))
  }

  /** Two words separated by a space and followed by whitespace are two fields. */
  lemma FieldsOfPair(a: string, b: string, c: char)
    requires IsWord(a) && IsWord(b) && IsWhitespace(c)
    ensures Fields(a + " " + b + [c]) == [a, b]
  {
    var ws := [a, b];
    assert Spaces(1) == " ";
    assert ws[1..] == [b];
    assert JoinPadded(ws, [1]) == a + " " + b;
    FieldsOfJoin(ws, [1]);
    FieldsSpaceAtEnd(JoinPadded(ws, [1]), c);
  }

  /** Two words separated by a space and ended by a newline are read as those two fields. */
  lemma UpTimeOfWords(a: string, b: string)
    requires IsWord(a) && IsWord(b)
    ensures UpTime(a + " " + b + "\n") == UptimeOfFields([a, b])
  {
    FieldsOfPair(a, b, '\n');
    FieldsOfTrim(a + " " + b + "\n");
  }

  /** Two rendered naturals on a line read back as the up and idle times. */
  lemma UpTimeOfRendered(up: nat, idle: nat)
    ensures UpTime(Decimal(up) + " " + Decimal(idle) + "\n") == Ok(Uptime(up, idle))
  {
    DecimalIsWord(up);
    DecimalIsWord(idle);
    ParseFloatDecimal(up);
    ParseFloatDecimal(idle);
    UpTimeOfWords(Decimal(up), Decimal(idle));
  }

  lemma DecimalValueSnoc(d: string, c: char)
    requires AllDigits(d) && IsDigit(c)
    ensures AllDigits(d + [c]) && DecimalValue(d + [c]) == DecimalValue(d) * 10 + DigitValue(c)
  {
    assert (d + [c])[..|d|] == d;
  }

  /** Two more digits multiply the value by a hundred. */
  lemma DecimalValueTwoMore(d: string, h: string)
    requires AllDigits(d) && AllDigits(h) && |h| == 2
    ensures AllDigits(d + h) && DecimalValue(d + h) == DecimalValue(d) * 100 + DecimalValue(h)
  {
    assert d + h == (d + [h[0]]) + [h[1]];
    DecimalValueSnoc(d, h[0]);
    DecimalValueSnoc(d + [h[0]], h[1]);
    assert [] + [h[0]] == [h[0]] && [h[0]] + [h[1]] == h;
    DecimalValueSnoc([], h[0]);
    DecimalValueSnoc([h[0]], h[1]);
  }

  /** A time as the kernel writes it in /proc/uptime: seconds, a point, two digits. */
  function PointText(secs: string, hundredths: string): string {
    secs + "." + hundredths
  }

  /** A time as /proc/uptime writes it, "350735.47", is one field and reads back in
      hundredths of a second: the decimal point is not a digit and is stripped before the
      number is parsed. With UpTimeOfWords this gives the reading of the whole file. */
  lemma UptimeFieldInHundredths(secs: string, hundredths: string)
    requires AllDigits(secs) && AllDigits(hundredths) && secs != [] && |hundredths| == 2
    ensures IsWord(PointText(secs, hundredths))
    ensures ParseFloatField(PointText(secs, hundredths))
      == Some(DecimalValue(secs) * 100 + DecimalValue(hundredths))
  {
    var f := PointText(secs, hundredths);
    assert forall i :: 0 <= i < |f| ==> f[i] == '.' || IsDigit(f[i]);
    StripDigitsPointDigits(secs, hundredths);
    DecimalValueTwoMore(secs, hundredths);
  }

  lemma StripDigitsPointDigits(d: string, t: string)
    requires AllDigits(d) && AllDigits(t)
    ensures StripNonNumeric(PointText(d, t)) == d + t
  {
    StripAppend(d + ".", t);
    StripAppend(d, ".");
  }

  // ------------------------------------------------------------------------------------
  // /proc/stat

  /** Cumulative CPU time counters of the "cpu " line of /proc/stat, each an i32. */
  datatype CPUtime = CPUtime(
    user: I32, nice: I32, system: I32, idle: I32, iowait: I32, irq: I32, softirq: I32)

  predicate NonNegative(c: CPUtime) {
    c.user >= 0 && c.nice >= 0 && c.system >= 0 && c.idle >= 0
    && c.iowait >= 0 && c.irq >= 0 && c.softirq >= 0
  }

  const CPU_PREFIX: string := "cpu "
  const CPU_NOT_FOUND: string := "Could not find cpu in /proc/stat"
  const CPU_FIELDS_ERROR: string := "Incorrect number of fields in cpu line of /proc/stat"
  const CPU_PARSE_ERROR: string := "Could not parse fields in /proc/stat"

  /** Fields 1 to 7 of the cpu line as user, nice, system, idle, iowait, irq, softirq. */
  function CpuFields(vec: seq<string>): (r: Result<CPUtime, string>)
    requires |vec| >= 8
    ensures r.Ok? <==> forall k :: 1 <= k < 8 ==> ParseI32(vec[k]).Some?
    ensures r.Ok? ==> NonNegative(r.value)
    ensures r.Err? ==> r.error == CPU_PARSE_ERROR
  {
    if ParseI32(vec[1]).Some? && ParseI32(vec[2]).Some? && ParseI32(vec[3]).Some?
       && ParseI32(vec[4]).Some? && ParseI32(vec[5]).Some? && ParseI32(vec[6]).Some?
       && ParseI32(vec[7]).Some?
    then
      Ok(CPUtime(ParseI32(vec[1]).value, ParseI32(vec[2]).value, ParseI32(vec[3]).value,
                 ParseI32(vec[4]).value, ParseI32(vec[5]).value, ParseI32(vec[6]).value,
                 ParseI32(vec[7]).value))
    else
      Err(CPU_PARSE_ERROR)
  }

  /** The cpu line: at least eight fields, then the counters. */
  function CpuOfLine(line: string): Result<CPUtime, string> {
    var vec := Fields(Trim(line));
    if |vec| < 8 then Err(CPU_FIELDS_ERROR) else CpuFields(vec)
  }

  /** `cpu_time` on the contents of /proc/stat: the first line starting with "cpu ", which
      must have at least eight fields, the first seven counters all parsing. */
  function CpuTime(data: string): (r: Result<CPUtime, string>)
    ensures r == Err(CPU_NOT_FOUND) <==>
      forall j :: 0 <= j < |Lines(data)| ==> !StartsWith(Lines(data)[j], CPU_PREFIX)
    ensures r.Err? && r != Err(CPU_NOT_FOUND) ==>
      var line := FindLine(Lines(data), CPU_PREFIX);
      line.Some? && (r == Err(CPU_FIELDS_ERROR) <==> |Fields(line.value)| < 8)
    ensures r.Ok? ==> NonNegative(r.value)
  {
    match FindLine(Lines(data), CPU_PREFIX)
    case None => Err(CPU_NOT_FOUND)
    case Some(line) =>
      FieldsOfTrim(line);
      CpuOfLine(line)
  }

  function CpuWords(c: CPUtime): seq<string>
    requires NonNegative(c)
  {
    [Decimal(c.user), Decimal(c.nice), Decimal(c.system), Decimal(c.idle),
     Decimal(c.iowait), Decimal(c.irq), Decimal(c.softirq)]
  }

  /** A cpu line as the kernel writes it: the label, the seven counters, then any further
      counters (steal, guest, ...), with `pad` giving the run of spaces after each field. */
  function CpuLine(c: CPUtime, extra: seq<string>, pad: seq<nat>): string
    requires NonNegative(c) && Gaps(pad, 8 + |extra|)
  {
    JoinPadded(["cpu"] + CpuWords(c) + extra, pad)
  }

  lemma {:induction false} AllWordsAppend(a: seq<string>, b: seq<string>)
    requires AllWords(a) && AllWords(b)
    ensures AllWords(a + b)
  {
    if a == [] {
      assert a + b == b;
    } else {
      assert (a + b)[0] == a[0];
      assert (a + b)[1..] == a[1..] + b;
      AllWordsAppend(a[1..], b);
    }
  }

  lemma CpuWordsAreWords(c: CPUtime, extra: seq<string>)
    requires NonNegative(c) && AllWords(extra)
    ensures AllWords(["cpu"] + CpuWords(c) + extra)
  {
    var head := ["cpu"] + CpuWords(c);
    DecimalIsWord(c.user); DecimalIsWord(c.nice); DecimalIsWord(c.system);
    DecimalIsWord(c.idle); DecimalIsWord(c.iowait); DecimalIsWord(c.irq);
    DecimalIsWord(c.softirq);
    AllWordsOf(head);
    AllWordsAppend(head, extra);
  }

  /** The label and the rendered counters parse back as the counters. */
  lemma CpuFieldsOfCounters(c: CPUtime, extra: seq<string>)
    requires NonNegative(c)
    ensures |["cpu"] + CpuWords(c) + extra| >= 8
    ensures CpuFields(["cpu"] + CpuWords(c) + extra) == Ok(c)
  {
    var vec := ["cpu"] + CpuWords(c) + extra;
    assert vec[1] == Decimal(c.user) && vec[2] == Decimal(c.nice) && vec[3] == Decimal(c.system);
    assert vec[4] == Decimal(c.idle) && vec[5] == Decimal(c.iowait) && vec[6] == Decimal(c.irq);
    assert vec[7] == Decimal(c.softirq);
    ParseI32Decimal(c.user); ParseI32Decimal(c.nice); ParseI32Decimal(c.system);
    ParseI32Decimal(c.idle); ParseI32Decimal(c.iowait); ParseI32Decimal(c.irq);
    ParseI32Decimal(c.softirq);
  }

  /** Words joined into a line are parsed from those words. */
  lemma CpuOfJoined(words: seq<string>, pad: seq<nat>, c: CPUtime)
    requires AllWords(words) && |words| >= 8 && Gaps(pad, |words|) && CpuFields(words) == Ok(c)
    ensures CpuOfLine(JoinPadded(words, pad)) == Ok(c) && IsLine(JoinPadded(words, pad))
  {
    FieldsOfJoin(words, pad);
    FieldsOfTrim(JoinPadded(words, pad));
    JoinPaddedIsLine(words, pad);
  }

  lemma LabelledLineStarts(words: seq<string>, pad: seq<nat>)
    requires |words| > 1 && words[0] == "cpu" && Gaps(pad, |words|)
    ensures StartsWith(JoinPadded(words, pad), CPU_PREFIX)
  {
    var line := JoinPadded(words, pad);
    assert line == "cpu" + Spaces(pad[0]) + JoinPadded(words[1..], pad[1..]);
    assert line[3] == ' ';
    assert line[..4] == CPU_PREFIX;
  }

  /** The first line starting with "cpu " decides the result, whatever surrounds it. */
  lemma CpuTimeAtLine(before: seq<string>, line: string, after: seq<string>, c: CPUtime)
    requires AllLines(before) && AllLines(after) && IsLine(line)
    requires forall k :: 0 <= k < |before| ==> !StartsWith(before[k], CPU_PREFIX)
    requires StartsWith(line, CPU_PREFIX) && CpuOfLine(line) == Ok(c)
    ensures CpuTime(JoinLines(before + [line] + after)) == Ok(c)
  {
    var ls := before + [line] + after;
    assert AllLines([line]);
    AllLinesAppend(before, [line]);
    AllLinesAppend(before + [line], after);
    LinesOfJoin(ls);
    FirstWithAt(before, line, after, CPU_PREFIX);
    assert ls[|before|] == line;
  }

  /** Reading back a /proc/stat whose first cpu line renders `c` gives `c`, whatever lines
      come after it, whatever further counters the line carries and however many spaces
      separate its fields (the kernel puts two after the label). */
  lemma CpuTimeOfStat(before: seq<string>, c: CPUtime, extra: seq<string>, pad: seq<nat>,
                      after: seq<string>)
    requires NonNegative(c) && AllWords(extra) && Gaps(pad, 8 + |extra|)
    requires AllLines(before) && AllLines(after)
    requires forall k :: 0 <= k < |before| ==> !StartsWith(before[k], CPU_PREFIX)
    ensures CpuTime(JoinLines(before + [CpuLine(c, extra, pad)] + after)) == Ok(c)
  {
    var words := ["cpu"] + CpuWords(c) + extra;
    CpuWordsAreWords(c, extra);
    CpuFieldsOfCounters(c, extra);
    CpuOfJoined(words, pad, c);
    LabelledLineStarts(words, pad);
    CpuTimeAtLine(before, JoinPadded(words, pad), after, c);
  }

  /** i32 subtraction as an optimised build performs it: the exact difference, wrapped into
      the i32 range. */
  function Wrap32(x: int): (w: I32)
    ensures I32_MIN <= x <= I32_MAX ==> w == x
    ensures (w - x) % 0x1_0000_0000 == 0
  {
    (x - I32_MIN) % 0x1_0000_0000 + I32_MIN
  }

  /** `CPUtime - CPUtime`: field by field. */
  function Sub(a: CPUtime, b: CPUtime): CPUtime {
    CPUtime(
      Wrap32(a.user - b.user), Wrap32(a.nice - b.nice), Wrap32(a.system - b.system),
      Wrap32(a.idle - b.idle), Wrap32(a.iowait - b.iowait), Wrap32(a.irq - b.irq),
      Wrap32(a.softirq - b.softirq))
  }

  /** For two readings of /proc/stat (non-negative counters) no field wraps: the
      difference is the exact field-wise difference. */
  lemma SubOfReadings(later: CPUtime, earlier: CPUtime)
    requires NonNegative(later) && NonNegative(earlier)
    ensures var d := Sub(later, earlier);
      && d.user == later.user - earlier.user && d.nice == later.nice - earlier.nice
      && d.system == later.system - earlier.system && d.idle == later.idle - earlier.idle
      && d.iowait == later.iowait - earlier.iowait && d.irq == later.irq - earlier.irq
      && d.softirq == later.softirq - earlier.softirq
  {
  }

  /** A reading minus itself is all zeros. */
  lemma SubSelf(c: CPUtime)
    ensures Sub(c, c) == CPUtime(0, 0, 0, 0, 0, 0, 0)
  {
  }

  // ------------------------------------------------------------------------------------
  // /proc/meminfo

  /** Total, free and available memory in kB. */
  datatype Meminfo = Meminfo(total: I32, free: I32, available: I32)

  const MEM_TOTAL: string := "MemTotal:"
  const MEM_FREE: string := "MemFree:"
  const MEM_AVAILABLE: string := "MemAvailable:"
  const MEM_NOT_FOUND: string := "Could not find fields in /proc/meminfo"
  const MEM_PARSE_ERROR: string := "Could not parse fields in /proc/meminfo"

  predicate HasLine(lines: seq<string>, prefix: string) {
    exists j :: 0 <= j < |lines| && StartsWith(lines[j], prefix)
  }

  /** The three lines found: the digits of each whole line must parse. */
  function MemOfLines(total: string, free: string, avail: string): (r: Result<Meminfo, string>)
    ensures r.Ok? <==> ParseI32(total).Some? && ParseI32(free).Some? && ParseI32(avail).Some?
    ensures r.Ok? ==> r.value == Meminfo(ParseI32(total).value, ParseI32(free).value, ParseI32(avail).value)
    ensures r.Err? ==> r.error == MEM_PARSE_ERROR
  {
    if ParseI32(total).Some? && ParseI32(free).Some? && ParseI32(avail).Some? then
      Ok(Meminfo(ParseI32(total).value, ParseI32(free).value, ParseI32(avail).value))
    else
      Err(MEM_PARSE_ERROR)
  }

  /** `mem_info` on the contents of /proc/meminfo: the first MemTotal:, MemFree: and
      MemAvailable: lines must all exist, and the digits of each whole line must parse. */
  function MemInfo(data: string): (r: Result<Meminfo, string>)
    ensures r == Err(MEM_NOT_FOUND) <==>
      !(HasLine(Lines(data), MEM_TOTAL) && HasLine(Lines(data), MEM_FREE)
        && HasLine(Lines(data), MEM_AVAILABLE))
    ensures r.Ok? ==> r.value.total >= 0 && r.value.free >= 0 && r.value.available >= 0
    ensures r.Err? ==> r.error == MEM_NOT_FOUND || r.error == MEM_PARSE_ERROR
  {
    var lines := Lines(data);
    var total := FindLine(lines, MEM_TOTAL);
    var free := FindLine(lines, MEM_FREE);
    var avail := FindLine(lines, MEM_AVAILABLE);
    if total.Some? && free.Some? && avail.Some? then
      MemOfLines(total.value, free.value, avail.value)
    else
      Err(MEM_NOT_FOUND)
  }

  /** A meminfo line: key, `pad` spaces (the kernel aligns the values in one column, so the
      padding differs from key to key), value, unit. */
  function MemLine(key: string, pad: nat, kb: nat): string {
    key + Spaces(pad) + Decimal(kb) + " kB"
  }

  lemma MemLineFacts(key: string, pad: nat, kb: nat)
    requires NoBreaks(key) && NoDigits(key)
    requires kb <= I32_MAX
    ensures IsLine(MemLine(key, pad, kb)) && StartsWith(MemLine(key, pad, kb), key)
    ensures ParseI32(MemLine(key, pad, kb)) == Some(kb)
  {
    var sp := Spaces(pad);
    DecimalIsWord(kb);
    WordNoBreaks(Decimal(kb));
    NoBreaksAppend(key, sp);
    NoBreaksAppend(key + sp, Decimal(kb));
    NoBreaksAppend(key + sp + Decimal(kb), " kB");
    NoBreaksIsLine(MemLine(key, pad, kb));
    assert MemLine(key, pad, kb)[..|key|] == key;
    assert NoDigits(key + sp) by {
      assert forall i :: 0 <= i < |key + sp| ==> (key + sp)[i] == if i < |key| then key[i] else ' ';
    }
    ParseI32Around(key + sp, kb, " kB");
  }

  lemma LinesOfThree(t: string, f: string, a: string, after: seq<string>)
    requires IsLine(t) && IsLine(f) && IsLine(a) && AllLines(after)
    ensures Lines(JoinLines([t, f, a] + after)) == [t, f, a] + after
  {
    assert AllLines([a]) by { assert [a][1..] == []; }
    assert AllLines([f, a]) by { assert [f, a][1..] == [a]; }
    assert AllLines([t, f, a]) by { assert [t, f, a][1..] == [f, a]; }
    AllLinesAppend([t, f, a], after);
    LinesOfJoin([t, f, a] + after);
  }

  lemma FindsThree(t: string, f: string, a: string, after: seq<string>)
    requires StartsWith(t, MEM_TOTAL) && StartsWith(f, MEM_FREE) && StartsWith(a, MEM_AVAILABLE)
    requires !StartsWith(t, MEM_FREE) && !StartsWith(t, MEM_AVAILABLE) && !StartsWith(f, MEM_AVAILABLE)
    ensures FindLine([t, f, a] + after, MEM_TOTAL) == Some(t)
    ensures FindLine([t, f, a] + after, MEM_FREE) == Some(f)
    ensures FindLine([t, f, a] + after, MEM_AVAILABLE) == Some(a)
  {
    var ls := [t, f, a] + after;
    assert [] + [t] + ([f, a] + after) == ls;
    FindLineAt([], t, [f, a] + after, MEM_TOTAL);
    assert [t] + [f] + ([a] + after) == ls;
    FindLineAt([t], f, [a] + after, MEM_FREE);
    assert [t, f] + [a] + after == ls;
    FindLineAt([t, f], a, after, MEM_AVAILABLE);
  }

  /** Three lines that each carry only their own key come first: their values are read. */
  lemma MemInfoAtLines(t: string, f: string, a: string, after: seq<string>, m: Meminfo)
    requires IsLine(t) && IsLine(f) && IsLine(a) && AllLines(after)
    requires StartsWith(t, MEM_TOTAL) && StartsWith(f, MEM_FREE) && StartsWith(a, MEM_AVAILABLE)
    requires !StartsWith(t, MEM_FREE) && !StartsWith(t, MEM_AVAILABLE) && !StartsWith(f, MEM_AVAILABLE)
    requires ParseI32(t) == Some(m.total) && ParseI32(f) == Some(m.free)
    requires ParseI32(a) == Some(m.available)
    ensures MemInfo(JoinLines([t, f, a] + after)) == Ok(m)
  {
    LinesOfThree(t, f, a, after);
    FindsThree(t, f, a, after);
  }

  /** The three lines the kernel puts first, each padded its own way, read back as the three
      values, whatever follows. */
  lemma MemInfoOfRendered(m: Meminfo, pt: nat, pf: nat, pa: nat, t: string, f: string, a: string,
                          after: seq<string>)
    requires m.total >= 0 && m.free >= 0 && m.available >= 0
    requires t == MemLine(MEM_TOTAL, pt, m.total) && f == MemLine(MEM_FREE, pf, m.free)
    requires a == MemLine(MEM_AVAILABLE, pa, m.available)
    requires AllLines(after)
    ensures MemInfo(JoinLines([t, f, a] + after)) == Ok(m)
  {
    MemKeysPlain();
    MemLineFacts(MEM_TOTAL, pt, m.total);
    MemLineFacts(MEM_FREE, pf, m.free);
    MemLineFacts(MEM_AVAILABLE, pa, m.available);
    MemKeysDiffer(t, f, m, pt, pf);
    MemInfoAtLines(t, f, a, after, m);
  }

  lemma MemKeysPlain()
    ensures NoBreaks(MEM_TOTAL) && NoDigits(MEM_TOTAL)
    ensures NoBreaks(MEM_FREE) && NoDigits(MEM_FREE)
    ensures NoBreaks(MEM_AVAILABLE) && NoDigits(MEM_AVAILABLE)
  {
  }

  /** The three keys tell their lines apart. */
  lemma MemKeysDiffer(t: string, f: string, m: Meminfo, pt: nat, pf: nat)
    requires m.total >= 0 && m.free >= 0
    requires t == MemLine(MEM_TOTAL, pt, m.total) && f == MemLine(MEM_FREE, pf, m.free)
    ensures !StartsWith(t, MEM_FREE) && !StartsWith(t, MEM_AVAILABLE) && !StartsWith(f, MEM_AVAILABLE)
  {
    assert t[3] == 'T' && f[3] == 'F';
    assert MEM_FREE[3] == 'F' && MEM_AVAILABLE[3] == 'A';
  }

  // ------------------------------------------------------------------------------------
  // df -k

  /** One row of the disk usage table; sizes in kB, the use percentage from its digits. */
  datatype Diskinfo = Diskinfo(
    filesystem: string, total: I32, used: I32, available: I32, usePercent: nat, mountedOn: string)

  const DF_EXEC_ERROR: string := "Could not execute df command"
  const DF_FIELDS_ERROR: string := "Wrong number fields in df output"
  const DF_PARSE_ERROR: string := "Failed to parse a line"
  const MOUNT_NOT_FOUND: string := "Could not find mount entry"
  const FILESYSTEM_NOT_FOUND: string := "Could not find filesystem entry"

  /** The six fields of a df row: fields 1-3 i32 sizes, field 4 the use percentage. */
  function DiskOfFields(vec: seq<string>): (r: Result<Diskinfo, string>)
    ensures r == Err(DF_FIELDS_ERROR) <==> |vec| != 6
    ensures |vec| == 6 ==>
      (r.Ok? <==> (ParseI32(vec[1]).Some? && ParseI32(vec[2]).Some?
                   && ParseI32(vec[3]).Some? && ParseFloatField(vec[4]).Some?))
    ensures r.Ok? ==> r.value == Diskinfo(vec[0], ParseI32(vec[1]).value, ParseI32(vec[2]).value,
      ParseI32(vec[3]).value, ParseFloatField(vec[4]).value, vec[5])
    ensures r.Ok? ==> r.value.total >= 0 && r.value.used >= 0 && r.value.available >= 0
    ensures r.Err? ==> r.error == DF_FIELDS_ERROR || r.error == DF_PARSE_ERROR
  {
    if |vec| != 6 then Err(DF_FIELDS_ERROR)
    else if ParseI32(vec[1]).Some? && ParseI32(vec[2]).Some? && ParseI32(vec[3]).Some?
            && ParseFloatField(vec[4]).Some?
    then
      Ok(Diskinfo(vec[0], ParseI32(vec[1]).value, ParseI32(vec[2]).value, ParseI32(vec[3]).value,
                  ParseFloatField(vec[4]).value, vec[5]))
    else
      Err(DF_PARSE_ERROR)
  }

  /** A six-field row whose size columns hold no digits (as df prints a pseudo file system
      with "-") fails the whole table with the parse error. */
  lemma DashRowFails()
    ensures DiskOfFields(["tmpfs", "-", "0", "0", "-", "/x"]) == Err(DF_PARSE_ERROR)
  {
    var vec := ["tmpfs", "-", "0", "0", "-", "/x"];
    assert vec[1] == "-";
    assert StripNonNumeric("-") == [];
  }

  /** One line of df output: the fields of the trimmed line. */
  function DfLine(line: string): Result<Diskinfo, string> {
    DiskOfFields(Fields(Trim(line)))
  }

  /** Trimming does not change a line's fields. */
  lemma DfLineOfFields(line: string)
    ensures DfLine(line) == DiskOfFields(Fields(line))
  {
    FieldsOfTrim(line);
  }

  /** The values when every result is Ok, otherwise the error of the first one that is not:
      the loop that pushes each value and returns at the first error. */
  function Collect<T>(parsed: seq<Result<T, string>>): (r: Result<seq<T>, string>)
    ensures r.Ok? <==> forall k :: 0 <= k < |parsed| ==> parsed[k].Ok?
    ensures r.Ok? ==> |r.value| == |parsed|
    ensures r.Ok? ==> forall k :: 0 <= k < |parsed| ==> r.value[k] == parsed[k].value
    ensures r.Err? ==> exists k :: (0 <= k < |parsed| && parsed[k] == Err(r.error)
      && forall j :: 0 <= j < k ==> parsed[j].Ok?)
  {
    if parsed == [] then Ok([])
    else
      assert forall k :: 1 <= k < |parsed| ==> parsed[k] == parsed[1..][k - 1];
      match parsed[0]
      case Err(e) => Err(e)
      case Ok(x) =>
        var rest := Collect(parsed[1..]);
        assert rest.Err? ==> exists k :: (1 <= k < |parsed| && parsed[k] == Err(rest.error)
          && forall j :: 0 <= j < k ==> parsed[j].Ok?) by {
          if rest.Err? {
            var k :| 0 <= k < |parsed[1..]| && parsed[1..][k] == Err(rest.error)
              && forall j :: 0 <= j < k ==> parsed[1..][j].Ok?;
            assert parsed[k + 1] == Err(rest.error);
          }
        }
        match rest
        case Err(e) => Err(e)
        case Ok(xs) => Ok([x] + xs)
  }

  /** One more Ok result extends the values. */
  lemma CollectExtend<T>(parsed: seq<Result<T, string>>, k: nat, xs: seq<T>)
    requires k < |parsed| && parsed[k].Ok?
    requires Collect(parsed[..k]) == Ok(xs)
    ensures Collect(parsed[..k + 1]) == Ok(xs + [parsed[k].value])
  {
    var r := Collect(parsed[..k + 1]);
    assert r.value == xs + [parsed[k].value];
  }

  /** The error is the first failing result's, whatever follows it. */
  lemma CollectFirstFailure<T>(parsed: seq<Result<T, string>>, k: nat)
    requires k < |parsed| && parsed[k].Err?
    requires Collect(parsed[..k]).Ok?
    ensures Collect(parsed) == Err(parsed[k].error)
  {
    assert forall j :: 0 <= j < k ==> parsed[..k][j] == parsed[j];
    var r := Collect(parsed);
    var i :| 0 <= i < |parsed| && parsed[i] == Err(r.error) && forall j :: 0 <= j < i ==> parsed[j].Ok?;
    assert i == k;
  }

  /** Each line parsed on its own. */
  function ParsedRows(lines: seq<string>): (p: seq<Result<Diskinfo, string>>)
    ensures |p| == |lines|
    ensures forall k :: 0 <= k < |lines| ==> p[k] == DfLine(lines[k])
  {
    seq(|lines|, k requires 0 <= k < |lines| => DfLine(lines[k]))
  }

  /** The table of the lines after the header: every line must parse, and the first that
      does not decides the error. */
  function DfRows(lines: seq<string>): (r: Result<seq<Diskinfo>, string>)
    ensures r.Ok? <==> forall k :: 0 <= k < |lines| ==> DfLine(lines[k]).Ok?
    ensures r.Ok? ==> |r.value| == |lines|
    ensures r.Ok? ==> forall k :: 0 <= k < |lines| ==> r.value[k] == DfLine(lines[k]).value
    ensures r.Err? ==> exists k :: (0 <= k < |lines| && DfLine(lines[k]) == Err(r.error)
      && forall j :: 0 <= j < k ==> DfLine(lines[j]).Ok?)
    ensures r.Err? ==> r.error == DF_FIELDS_ERROR || r.error == DF_PARSE_ERROR
  {
    Collect(ParsedRows(lines))
  }

  function SkipFirst(lines: seq<string>): seq<string> {
    if lines == [] then [] else lines[1..]
  }

  /** `df -k` output parsed as `disk_usage_all` does: the header line skipped, every other
      line a table row. */
  function DfTable(stdout: string): Result<seq<Diskinfo>, string> {
    DfRows(SkipFirst(Lines(stdout)))
  }

  /** The result of `disk_usage_all` for the command's captured standard output, None when
      the command could not be run. */
  function DiskUsage(output: Option<string>): Result<seq<Diskinfo>, string> {
    match output
    case None => Err(DF_EXEC_ERROR)
    case Some(stdout) => DfTable(stdout)
  }

  /** `disk_usage_all`: one pass over the lines after the header, pushing each parsed row
      and returning at the first line that does not parse. */
  method DiskUsageAll(output: Option<string>) returns (r: Result<seq<Diskinfo>, string>)
    ensures r == DiskUsage(output)
  {
    if output.None? {
      return Err(DF_EXEC_ERROR);
    }
    var rows := SkipFirst(Lines(output.value));
    ghost var parsed := ParsedRows(rows);
    var result: seq<Diskinfo> := [];
    for k := 0 to |rows|
      invariant Collect(parsed[..k]) == Ok(result)
    {
      var d := DfLine(rows[k]);
      assert parsed[k] == d;
      if d.Err? {
        CollectFirstFailure(parsed, k);
        return Err(d.error);
      }
      CollectExtend(parsed, k, result);
      result := result + [d.value];
    }
    assert parsed[..|rows|] == parsed;
    return Ok(result);
  }

  /** `find_mount`: the first entry mounted on `ptr`, an error when there is none. */
  function FindMount(disks: seq<Diskinfo>, ptr: string): (r: Result<Diskinfo, string>)
    ensures r.Err? <==> forall k :: 0 <= k < |disks| ==> disks[k].mountedOn != ptr
    ensures r.Err? ==> r.error == MOUNT_NOT_FOUND
    ensures r.Ok? ==> exists k :: (0 <= k < |disks| && disks[k] == r.value
      && r.value.mountedOn == ptr && forall j :: 0 <= j < k ==> disks[j].mountedOn != ptr)
  {
    if disks == [] then Err(MOUNT_NOT_FOUND)
    else if disks[0].mountedOn == ptr then Ok(disks[0])
    else
      var r := FindMount(disks[1..], ptr);
      assert forall k :: 1 <= k < |disks| ==> disks[k] == disks[1..][k - 1];
      assert r.Ok? ==> exists k :: (1 <= k < |disks| && disks[k] == r.value
        && forall j :: 0 <= j < k ==> disks[j].mountedOn != ptr) by {
        if r.Ok? {
          var k :| 0 <= k < |disks[1..]| && disks[1..][k] == r.value
            && forall j :: 0 <= j < k ==> disks[1..][j].mountedOn != ptr;
          assert disks[k + 1] == r.value;
        }
      }
      r
  }

  /** `find_filesystem`: the first entry for filesystem `ptr`, an error when there is none. */
  function FindFilesystem(disks: seq<Diskinfo>, ptr: string): (r: Result<Diskinfo, string>)
    ensures r.Err? <==> forall k :: 0 <= k < |disks| ==> disks[k].filesystem != ptr
    ensures r.Err? ==> r.error == FILESYSTEM_NOT_FOUND
    ensures r.Ok? ==> exists k :: (0 <= k < |disks| && disks[k] == r.value
      && r.value.filesystem == ptr && forall j :: 0 <= j < k ==> disks[j].filesystem != ptr)
  {
    if disks == [] then Err(FILESYSTEM_NOT_FOUND)
    else if disks[0].filesystem == ptr then Ok(disks[0])
    else
      var r := FindFilesystem(disks[1..], ptr);
      assert forall k :: 1 <= k < |disks| ==> disks[k] == disks[1..][k - 1];
      assert r.Ok? ==> exists k :: (1 <= k < |disks| && disks[k] == r.value
        && forall j :: 0 <= j < k ==> disks[j].filesystem != ptr) by {
        if r.Ok? {
          var k :| 0 <= k < |disks[1..]| && disks[1..][k] == r.value
            && forall j :: 0 <= j < k ==> disks[1..][j].filesystem != ptr;
          assert disks[k + 1] == r.value;
        }
      }
      r
  }

  /** `disk_usage_by_mount`: the table, then the first entry mounted on `ptr`. */
  method DiskUsageByMount(output: Option<string>, ptr: string) returns (r: Result<Diskinfo, string>)
    ensures DiskUsage(output).Err? ==> r == Err(DiskUsage(output).error)
    ensures DiskUsage(output).Ok? ==> r == FindMount(DiskUsage(output).value, ptr)
  {
    var all := DiskUsageAll(output);
    match all
    case Err(e) => r := Err(e);
    case Ok(disks) => r := FindMount(disks, ptr);
  }

  /** `disk_usage_by_filesystem`: the table, then the first entry for filesystem `ptr`. */
  method DiskUsageByFilesystem(output: Option<string>, ptr: string) returns (r: Result<Diskinfo, string>)
    ensures DiskUsage(output).Err? ==> r == Err(DiskUsage(output).error)
    ensures DiskUsage(output).Ok? ==> r == FindFilesystem(DiskUsage(output).value, ptr)
  {
    var all := DiskUsageAll(output);
    match all
    case Err(e) => r := Err(e);
    case Ok(disks) => r := FindFilesystem(disks, ptr);
  }

  /** A row that df can print and the parser can read back. */
  predicate Printable(d: Diskinfo) {
    IsWord(d.filesystem) && IsWord(d.mountedOn) && d.total >= 0 && d.used >= 0 && d.available >= 0
  }

  function DfWords(d: Diskinfo): seq<string>
    requires Printable(d)
  {
    [d.filesystem, Decimal(d.total), Decimal(d.used), Decimal(d.available),
     Decimal(d.usePercent) + "%", d.mountedOn]
  }

  /** A row as df prints it: filesystem, sizes, percentage with a '%' sign, mount point,
      with `pad` giving the run of spaces after each column. */
  function DfRow(d: Diskinfo, pad: seq<nat>): string
    requires Printable(d) && Gaps(pad, 6)
  {
    JoinPadded(DfWords(d), pad)
  }

  /** Rows df can print, each with the padding of its own columns. */
  predicate PrintableTable(ds: seq<Diskinfo>, pads: seq<seq<nat>>) {
    |pads| == |ds| && forall k :: 0 <= k < |ds| ==> Printable(ds[k]) && Gaps(pads[k], 6)
  }

  lemma DfWordsAreWords(d: Diskinfo)
    requires Printable(d)
    ensures AllWords(DfWords(d))
  {
    DecimalIsWord(d.total);
    DecimalIsWord(d.used);
    DecimalIsWord(d.available);
    DecimalIsWord(d.usePercent);
    var p := Decimal(d.usePercent) + "%";
    assert forall i :: 0 <= i < |p| - 1 ==> p[i] == Decimal(d.usePercent)[i];
    assert IsWord(p);
    AllWordsOf(DfWords(d));
  }

  /** The fields of a printed row give the row. */
  lemma DiskOfRowWords(d: Diskinfo)
    requires Printable(d)
    ensures DiskOfFields(DfWords(d)) == Ok(d)
  {
    var ws := DfWords(d);
    assert ws[1] == Decimal(d.total) && ws[2] == Decimal(d.used) && ws[3] == Decimal(d.available);
    assert ws[4] == "" + Decimal(d.usePercent) + "%";
    ParseI32Decimal(d.total);
    ParseI32Decimal(d.used);
    ParseI32Decimal(d.available);
    ParseFloatAround("", d.usePercent, "%");
  }

  /** Words laid out in a line parse as their fields do. */
  lemma DfLineOfWords(ws: seq<string>, pad: seq<nat>)
    requires AllWords(ws) && Gaps(pad, |ws|)
    ensures DfLine(JoinPadded(ws, pad)) == DiskOfFields(ws) && IsLine(JoinPadded(ws, pad))
  {
    FieldsOfJoin(ws, pad);
    DfLineOfFields(JoinPadded(ws, pad));
    JoinPaddedIsLine(ws, pad);
  }

  /** A printed row reads back as the row, however its columns are padded. */
  lemma DfLineOfRow(d: Diskinfo, pad: seq<nat>)
    requires Printable(d) && Gaps(pad, 6)
    ensures DfLine(DfRow(d, pad)) == Ok(d)
    ensures IsLine(DfRow(d, pad))
  {
    DfWordsAreWords(d);
    DiskOfRowWords(d);
    DfLineOfWords(DfWords(d), pad);
  }

  function DfRowsOf(ds: seq<Diskinfo>, pads: seq<seq<nat>>): (rows: seq<string>)
    requires PrintableTable(ds, pads)
    ensures |rows| == |ds| && forall k :: 0 <= k < |ds| ==> rows[k] == DfRow(ds[k], pads[k])
  {
    seq(|ds|, k requires 0 <= k < |ds| => DfRow(ds[k], pads[k]))
  }

  lemma {:induction false} PrintedRowsAreLines(rows: seq<string>, ds: seq<Diskinfo>, pads: seq<seq<nat>>)
    requires PrintableTable(ds, pads)
    requires |rows| == |ds| && forall k :: 0 <= k < |ds| ==> rows[k] == DfRow(ds[k], pads[k])
    ensures AllLines(rows)
  {
    if ds != [] {
      DfLineOfRow(ds[0], pads[0]);
      assert PrintableTable(ds[1..], pads[1..]) by {
        assert forall k :: 0 <= k < |ds| - 1 ==> ds[1..][k] == ds[k + 1] && pads[1..][k] == pads[k + 1];
      }
      PrintedRowsAreLines(rows[1..], ds[1..], pads[1..]);
    }
  }

  /** Printed rows read back as the rows, in order. */
  lemma DfRowsOfPrinted(ds: seq<Diskinfo>, pads: seq<seq<nat>>)
    requires PrintableTable(ds, pads)
    ensures AllLines(DfRowsOf(ds, pads)) && DfRows(DfRowsOf(ds, pads)) == Ok(ds)
  {
    var rows := DfRowsOf(ds, pads);
    PrintedRowsAreLines(rows, ds, pads);
    forall k | 0 <= k < |ds|
      ensures DfLine(rows[k]) == Ok(ds[k])
    {
      DfLineOfRow(ds[k], pads[k]);
    }
    assert DfRows(rows).value == ds;
  }

  /** Printing a table under any header line, with its columns padded in any way, and
      parsing the output gives the table back, row for row and in order. */
  lemma DfTableOfOutput(header: string, ds: seq<Diskinfo>, pads: seq<seq<nat>>)
    requires IsLine(header)
    requires PrintableTable(ds, pads)
    ensures DfTable(JoinLines([header] + DfRowsOf(ds, pads))) == Ok(ds)
  {
    var ls := [header] + DfRowsOf(ds, pads);
    DfRowsOfPrinted(ds, pads);
    assert ls[0] == header && ls[1..] == DfRowsOf(ds, pads);
    LinesOfJoin(ls);
  }
}
