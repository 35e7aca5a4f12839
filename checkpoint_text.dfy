/** The text side of the scanner's two checkpoint files: the seen-wallets
    file (one address per line, sorted) and the last-check file (one integer).
    Reading and writing the files themselves is outside the model; these are
    the functions from file contents to values and back. */
module CheckpointText {
  import opened Basics

  // ----------------------------------------------------------------------
  // str.strip()

  /** Python's str.isspace() for one character. */
  predicate IsSpace(c: char) {
    || c == ' '
    || ('\t' <= c <= '\r')
    || ('\U{1C}' <= c <= '\U{1F}')
    || c == '\U{85}' || c == '\U{A0}' || c == '\U{1680}'
    || ('\U{2000}' <= c <= '\U{200A}')
    || c == '\U{2028}' || c == '\U{2029}' || c == '\U{202F}'
    || c == '\U{205F}' || c == '\U{3000}'
  }

  /** Every character of s from lo up to hi is white space. */
  predicate AllSpace(s: string, lo: int, hi: int) {
    forall k :: 0 <= lo <= k < hi <= |s| ==> IsSpace(s[k])
  }

  /** The length of the run of white space that starts s. */
  function LeadingSpace(s: string): (n: nat)
    ensures n <= |s| && AllSpace(s, 0, n)
    ensures n < |s| ==> !IsSpace(s[n])
  {
    if s != [] && IsSpace(s[0]) then 1 + LeadingSpace(s[1..]) else 0
  }

  /** The length of the run of white space that ends s. */
  function TrailingSpace(s: string): (n: nat)
    ensures n <= |s| && AllSpace(s, |s| - n, |s|)
    ensures n < |s| ==> !IsSpace(s[|s| - 1 - n])
  {
    if s != [] && IsSpace(s[|s| - 1]) then 1 + TrailingSpace(s[..|s| - 1]) else 0
  }

  /** str.strip(): the text without its leading and trailing white space.
      The result starts right after the leading run of white space, only
      white space follows it, and it neither starts nor ends with white
      space. */
  function Strip(s: string): (r: string)
    ensures LeadingSpace(s) + |r| <= |s|
    ensures r == s[LeadingSpace(s)..LeadingSpace(s) + |r|]
    ensures AllSpace(s, LeadingSpace(s) + |r|, |s|)
    ensures r != [] ==> !IsSpace(r[0]) && !IsSpace(r[|r| - 1])
  {
    var i := LeadingSpace(s);
    if i == |s| then []
    else
      var j := |s| - TrailingSpace(s);
      s[i..j]
  }

  /** Stripping adds no character: in particular no line break. */
  lemma StripKeepsOut(s: string, c: char)
    requires c !in s
    ensures c !in Strip(s)
  {
  }

  /** An address that survives a save and a load unchanged: not blank, no
      white space at either end, and no line break inside. */
  predicate Clean(u: string) {
    u != [] && !IsSpace(u[0]) && !IsSpace(u[|u| - 1]) && '\n' !in u && '\r' !in u
  }

  lemma StripClean(u: string)
    requires Clean(u)
    ensures Strip(u) == u
  {
    StripUnpadded(u);
  }

  // ----------------------------------------------------------------------
  // Iterating over the lines of a file

  /** The index of the first line break of s, or |s| when it has none. */
  function LineEnd(s: string): (n: nat)
    ensures n <= |s|
    ensures n < |s| ==> s[n] == '\n'
  {
    if s == [] || s[0] == '\n' then 0 else 1 + LineEnd(s[1..])
  }

  /** The text before the first line break holds no line break. */
  lemma {:induction false} BeforeLineEnd(s: string)
    ensures '\n' !in s[..LineEnd(s)]
  {
    if s != [] && s[0] != '\n' {
      BeforeLineEnd(s[1..]);
      assert s[..LineEnd(s)] == [s[0]] + s[1..][..LineEnd(s[1..])];
    }
  }

  /** A text that ends in a line break has a first line that stops there
      or earlier. */
  lemma LineEndFindsBreak(s: string)
    requires s != [] && s[|s| - 1] == '\n'
    ensures LineEnd(s) < |s|
  {
    BeforeLineEnd(s);
  }

  /** The lines that `for line in f` yields, each without the line break
      that ends it (strip() would remove that break anyway). */
  function Lines(text: string): seq<string>
    decreases |text|
  {
    if text == [] then []
    else
      var n := LineEnd(text);
      [text[..n]] + (if n < |text| then Lines(text[n + 1..]) else [])
  }

  /** No line holds a line break. */
  lemma {:induction false} LinesHaveNoBreak(text: string)
    ensures forall l :: l in Lines(text) ==> '\n' !in l
    decreases |text|
  {
    if text != [] {
      var n := LineEnd(text);
      var first := text[..n];
      BeforeLineEnd(text);
      if n < |text| {
        LinesHaveNoBreak(text[n + 1..]);
        assert Lines(text) == [first] + Lines(text[n + 1..]);
      } else {
        assert Lines(text) == [first];
      }
    }
  }

  /** A character absent from the text is absent from every line. */
  lemma {:induction false} LinesKeepOut(text: string, c: char)
    requires c !in text
    ensures forall l :: l in Lines(text) ==> c !in l
    decreases |text|
  {
    if text != [] {
      var n := LineEnd(text);
      SliceKeepsOut(text, c, 0, n);
      if n < |text| {
        var rest := text[n + 1..];
        SliceKeepsOut(text, c, n + 1, |text|);
        assert text[n + 1..|text|] == rest;
        LinesKeepOut(rest, c);
        assert Lines(text) == [text[..n]] + Lines(rest);
      } else {
        assert Lines(text) == [text[..n]];
      }
    }
  }

  lemma SliceKeepsOut(s: string, c: char, i: nat, j: nat)
    requires i <= j <= |s| && c !in s
    ensures c !in s[i..j]
  {
  }

  /** The file body written by one f.write(f"{u}\n") per line. */
  function Join(lines: seq<string>): (text: string)
    ensures text == [] || text[|text| - 1] == '\n'
  {
    if lines == [] then [] else lines[0] + "\n" + Join(lines[1..])
  }

  /** A line written with its line break in front of more text is read back
      as the first line, and the rest is read on its own. */
  lemma LinesOfLineThen(u: string, rest: string)
    requires '\n' !in u
    ensures Lines(u + "\n" + rest) == [u] + Lines(rest)
  {
    var t := u + "\n" + rest;
    assert t == u + ("\n" + rest);
    assert LineEnd(t) == |u| by { LineEndOfLine(u, "\n" + rest); }
    assert t[..|u|] == u;
    assert t[|u| + 1..] == rest;
  }

  /** Lines of a text that ends in a line break, followed by more text. */
  lemma {:induction false} LinesAppend(a: string, b: string)
    requires a == [] || a[|a| - 1] == '\n'
    ensures Lines(a + b) == Lines(a) + Lines(b)
    decreases |a|
  {
    if a == [] {
      assert a + b == b;
    } else {
      var first, rest := SplitFirstLine(a, b);
      LinesOfLineThen(first, rest);
      LinesOfLineThen(first, rest + b);
      LinesAppend(rest, b);
      ConcatAssociates([first], Lines(rest), Lines(b));
    }
  }

  /** A text that ends in a line break is its first line, that break, and
      a shorter rest that ends in a line break too. */
  lemma SplitFirstLine(a: string, b: string) returns (first: string, rest: string)
    requires a != [] && a[|a| - 1] == '\n'
    ensures '\n' !in first && |rest| < |a|
    ensures a == first + "\n" + rest
    ensures a + b == first + "\n" + (rest + b)
    ensures rest == [] || rest[|rest| - 1] == '\n'
  {
    var n := LineEnd(a);
    LineEndFindsBreak(a);
    BeforeLineEnd(a);
    first, rest := a[..n], a[n + 1..];
    assert a == first + "\n" + rest;
    if rest != [] {
      assert rest[|rest| - 1] == a[|a| - 1];
    }
  }

  lemma ConcatAssociates<T>(x: seq<T>, y: seq<T>, z: seq<T>)
    ensures x + (y + z) == (x + y) + z
  {
  }

  lemma {:induction false} LineEndOfLine(u: string, rest: string)
    requires '\n' !in u && rest != [] && rest[0] == '\n'
    ensures LineEnd(u + rest) == |u|
  {
    if u != [] {
      assert (u + rest)[1..] == u[1..] + rest;
      LineEndOfLine(u[1..], rest);
    } else {
      assert u + rest == rest;
    }
  }

  /** Writing lines without line breaks and reading them back gives the
      same lines in the same order. */
  lemma {:induction false} LinesOfJoin(ls: seq<string>)
    requires forall l :: l in ls ==> '\n' !in l
    ensures Lines(Join(ls)) == ls
  {
    if ls != [] {
      assert ls[0] in ls;
      LinesOfLineThen(ls[0], Join(ls[1..]));
      LinesOfJoin(ls[1..]);
    }
  }

  /** Reading a file in text mode: "\r\n" and a lone '\r' both arrive as a
      single '\n', and every other character as it is. */
  function Translate(s: string): (t: string)
    ensures '\r' !in t
    decreases |s|
  {
    if s == [] then []
    else if s[0] == '\r' then
      "\n" + Translate(if |s| > 1 && s[1] == '\n' then s[2..] else s[1..])
    else [s[0]] + Translate(s[1..])
  }

  /** A carriage return, alone or followed by '\n', is read as one '\n';
      what comes before it is read as written. */
  lemma {:induction false} TranslateReturn(u: string, v: string)
    requires '\r' !in u
    ensures Translate(u + "\r" + v) == u + "\n" + Translate(if v != [] && v[0] == '\n' then v[1..] else v)
    decreases |u|
  {
    var t := u + "\r" + v;
    if u == [] {
      assert t == "\r" + v;
      assert t[1..] == v;
      if v != [] && v[0] == '\n' {
        assert t[2..] == v[1..];
      }
    } else {
      var w := Translate(if v != [] && v[0] == '\n' then v[1..] else v);
      var tail := u[1..] + "\r" + v;
      assert Translate(t) == [u[0]] + Translate(tail) by {
        assert t[0] == u[0] && u[0] in u;
        assert t[1..] == tail;
      }
      assert Translate(tail) == u[1..] + "\n" + w by {
        TranslateReturn(u[1..], v);
      }
      assert [u[0]] + (u[1..] + "\n" + w) == ([u[0]] + u[1..]) + "\n" + w;
      HeadThenRest(u);
    }
  }

  /** A text without a carriage return is read as written. */
  lemma {:induction false} TranslateKeeps(s: string)
    requires '\r' !in s
    ensures Translate(s) == s
    decreases |s|
  {
    if s != [] {
      TranslateKeeps(s[1..]);
      HeadThenRest(s);
    }
  }

  lemma HeadThenRest(s: string)
    requires s != []
    ensures [s[0]] + s[1..] == s
  {
  }

  /** A text that ends in a line break is translated on its own: what
      follows it does not change how it is read. */
  lemma {:induction false} TranslateAppend(a: string, b: string)
    requires a == [] || a[|a| - 1] == '\n'
    ensures Translate(a + b) == Translate(a) + Translate(b)
    ensures a != [] ==> Translate(a) != [] && Translate(a)[|Translate(a)| - 1] == '\n'
    decreases |a|
  {
    if a == [] {
      assert a + b == b;
    } else if |a| == 1 {
      assert (a + b)[1..] == b;
    } else {
      var k := if a[0] == '\r' && a[1] == '\n' then 2 else 1;
      assert (a + b)[k..] == a[k..] + b;
      assert (a + b)[0] == a[0] && (a + b)[1] == a[1];
      TranslateAppend(a[k..], b);
      var h := if a[0] == '\r' then "\n" else [a[0]];
      assert Translate(a) == h + Translate(a[k..]);
      assert Translate(a + b) == h + Translate(a[k..] + b);
      ConcatAssociates(h, Translate(a[k..]), Translate(b));
    }
  }

  /** A line written without a line break or carriage return inside is read
      back as a line, whatever else was written around it. */
  lemma {:induction false} LineSurvivesJoin(ls: seq<string>, i: nat)
    requires i < |ls| && '\n' !in ls[i] && '\r' !in ls[i]
    ensures ls[i] in Lines(Translate(Join(ls)))
    decreases |ls|
  {
    var rest := ls[1..];
    if i > 0 {
      assert rest[i - 1] == ls[i];
      LineSurvivesJoin(rest, i - 1);
    }
    var head := ls[0] + "\n";
    var th, tt := Translate(head), Translate(Join(rest));
    assert Lines(Translate(Join(ls))) == Lines(th) + Lines(tt) by {
      assert Join(ls) == head + Join(rest);
      TranslateAppend(head, Join(rest));
      LinesAppend(th, tt);
    }
    if i == 0 {
      assert Lines(th) == [ls[0]] by {
        TranslateKeeps(head);
        LinesOfLineThen(ls[0], []);
        assert head + [] == head;
      }
    }
  }

  /** No character is written that is not in one of the lines, besides the
      line breaks. */
  lemma {:induction false} JoinKeepsOut(ls: seq<string>, c: char)
    requires c != '\n' && forall l :: l in ls ==> c !in l
    ensures c !in Join(ls)
  {
    if ls != [] {
      assert ls[0] in ls;
      JoinKeepsOut(ls[1..], c);
    }
  }

  // ----------------------------------------------------------------------
  // sorted() on strings: code-point lexicographic order

  /** a <= b between Python strings. */
  predicate LexLeq(a: string, b: string)
    decreases |a|
  {
    a == [] || (b != [] && (a[0] < b[0] || (a[0] == b[0] && LexLeq(a[1..], b[1..]))))
  }

  lemma {:induction false} LexReflexive(a: string)
    ensures LexLeq(a, a)
    decreases |a|
  {
    if a != [] { LexReflexive(a[1..]); }
  }

  lemma {:induction false} LexTotal(a: string, b: string)
    ensures LexLeq(a, b) || LexLeq(b, a)
    decreases |a|
  {
    if a != [] && b != [] && a[0] == b[0] { LexTotal(a[1..], b[1..]); }
  }

  lemma {:induction false} LexAntisymmetric(a: string, b: string)
    requires LexLeq(a, b) && LexLeq(b, a)
    ensures a == b
    decreases |a|
  {
    if a != [] {
      LexAntisymmetric(a[1..], b[1..]);
      assert a == [a[0]] + a[1..] && b == [b[0]] + b[1..];
    }
  }

  lemma {:induction false} LexTransitive(a: string, b: string, c: string)
    requires LexLeq(a, b) && LexLeq(b, c)
    ensures LexLeq(a, c)
    decreases |a|
  {
    if a != [] && a[0] == b[0] && b[0] == c[0] { LexTransitive(a[1..], b[1..], c[1..]); }
  }

  predicate IsLeast(m: string, users: set<string>) {
    m in users && forall u :: u in users ==> LexLeq(m, u)
  }

  lemma {:induction false} LeastExists(users: set<string>)
    requires users != {}
    ensures exists m :: IsLeast(m, users)
    decreases users
  {
    var x :| x in users;
    LexReflexive(x);
    if users != {x} {
      LeastExists(users - {x});
      var m :| IsLeast(m, users - {x});
      LexTotal(m, x);
      if LexLeq(m, x) {
        assert IsLeast(m, users);
      } else {
        forall u | u in users ensures LexLeq(x, u) {
          if u != x { LexTransitive(x, m, u); }
        }
        assert IsLeast(x, users);
      }
    } else {
      assert IsLeast(x, users);
    }
  }

  lemma LeastUnique(users: set<string>)
    ensures forall a, b :: IsLeast(a, users) && IsLeast(b, users) ==> a == b
  {
    forall a, b | IsLeast(a, users) && IsLeast(b, users) ensures a == b {
      LexAntisymmetric(a, b);
    }
  }

  /** sorted(users): every address once, in ascending order. */
  function SortedUsers(users: set<string>): (r: seq<string>)
    ensures |r| == |users|
    ensures forall u :: u in r <==> u in users
    ensures forall i, j :: 0 <= i < j < |r| ==> LexLeq(r[i], r[j])
    decreases users
  {
    if users == {} then []
    else
      LeastExists(users);
      LeastUnique(users);
      var m :| IsLeast(m, users);
      [m] + SortedUsers(users - {m})
  }

  // ----------------------------------------------------------------------
  // The seen-wallets file

  /** load_seen_users: the stripped, non-blank lines of the file read in
      text mode, or the
      empty set when there is no file. */
  function ParseSeenUsers(file: Option<string>): set<string> {
    match file
    case None => {}
    case Some(text) => set l | l in Lines(Translate(text)) && Strip(l) != [] :: Strip(l)
  }

  /** Every loaded address is clean, so saving it again round-trips. */
  lemma LoadedAreClean(file: Option<string>)
    ensures forall u :: u in ParseSeenUsers(file) ==> Clean(u)
  {
    if file.Some? {
      forall u | u in ParseSeenUsers(file) ensures Clean(u) {
        var l :| l in Lines(Translate(file.value)) && Strip(l) != [] && Strip(l) == u;
        LinesHaveNoBreak(Translate(file.value));
        LinesKeepOut(Translate(file.value), '\r');
        StripKeepsOut(l, '\n');
        StripKeepsOut(l, '\r');
      }
    }
  }

  /** save_seen_users: one address per line, in sorted order. */
  function RenderSeenUsers(users: set<string>): string {
    Join(SortedUsers(users))
  }

  /** The saved file holds the addresses in sorted order, one per line. */
  lemma SavedSorted(users: set<string>)
    requires forall u :: u in users ==> '\n' !in u
    ensures Lines(RenderSeenUsers(users)) == SortedUsers(users)
  {
    LinesOfJoin(SortedUsers(users));
  }

  /** A clean address that is saved is loaded again. */
  lemma CleanUserSurvivesSave(users: set<string>, u: string)
    requires u in users && Clean(u)
    ensures u in ParseSeenUsers(Some(RenderSeenUsers(users)))
  {
    var ls := SortedUsers(users);
    var i :| 0 <= i < |ls| && ls[i] == u;
    LineSurvivesJoin(ls, i);
    StripClean(u);
  }

  /** Loading what was saved gives back the same set of addresses. */
  lemma LoadSaveRoundTrip(users: set<string>)
    requires forall u :: u in users ==> Clean(u)
    ensures ParseSeenUsers(Some(RenderSeenUsers(users))) == users
  {
    var sorted := SortedUsers(users);
    JoinKeepsOut(sorted, '\r');
    TranslateKeeps(Join(sorted));
    SavedSorted(users);
    forall u | u in sorted ensures Strip(u) == u {
      StripClean(u);
    }
  }

  /** Re-saving a loaded set adds what was added and drops nothing. */
  lemma SaveNeverShrinks(old_users: set<string>, added: set<string>)
    requires forall u :: u in old_users ==> Clean(u)
    ensures old_users <= ParseSeenUsers(Some(RenderSeenUsers(old_users + added)))
  {
    forall u | u in old_users ensures u in ParseSeenUsers(Some(RenderSeenUsers(old_users + added))) {
      CleanUserSurvivesSave(old_users + added, u);
    }
  }

  // ----------------------------------------------------------------------
  // The last-check file

  const SCAN_INTERVAL_MIN: int := 4

  predicate IsDigit(c: char) {
    '0' <= c <= '9'
  }

  function DigitChar(d: nat): (c: char)
    requires d < 10
    ensures IsDigit(c)
  {
    ('0' as int + d) as char
  }

  /** str(n) for n >= 0: decimal digits, no leading zero. */
  function DecimalDigits(n: nat): (s: string)
    ensures s != [] && forall i :: 0 <= i < |s| ==> IsDigit(s[i])
  {
    if n < 10 then [DigitChar(n)] else DecimalDigits(n / 10) + [DigitChar(n % 10)]
  }

  /** The number that a string of decimal digits denotes. */
  function DigitsValue(s: string): nat
    requires forall i :: 0 <= i < |s| ==> IsDigit(s[i])
  {
    if s == [] then 0
    else
      assert IsDigit(s[|s| - 1]);
      DigitsValue(s[..|s| - 1]) * 10 + (s[|s| - 1] as int - '0' as int)
  }

  lemma {:induction false} DigitsRoundTrip(n: nat)
    ensures DigitsValue(DecimalDigits(n)) == n
  {
    if n >= 10 {
      var s := DecimalDigits(n);
      assert s[..|s| - 1] == DecimalDigits(n / 10);
      DigitsRoundTrip(n / 10);
    }
  }

  /** save_last_timestamp: str(ts). */
  function RenderTimestamp(ts: int): string {
    if ts < 0 then "-" + DecimalDigits(-ts) else DecimalDigits(ts)
  }

  predicate AllDigits(s: string) {
    forall i :: 0 <= i < |s| ==> IsDigit(s[i])
  }

  /** int(t) on a text without surrounding white space: an optional sign
      and at least one decimal digit; None where Python raises ValueError. */
  function ParseInteger(t: string): Option<int> {
    if |t| >= 2 && (t[0] == '-' || t[0] == '+') && AllDigits(t[1..]) then
      var v: int := DigitsValue(t[1..]);
      Some(if t[0] == '-' then -v else v)
    else if t != [] && AllDigits(t) then
      Some(DigitsValue(t))
    else
      None
  }

  /** int(text.strip()) */
  function ParseTimestamp(text: string): Option<int> {
    ParseInteger(Strip(text))
  }

  /** load_last_timestamp: the saved watermark, or SCAN_INTERVAL_MIN minutes
      before the clock when the file is missing or does not hold an integer. */
  function LoadTimestamp(file: Option<string>, clock: int): (ts: int)
    ensures file == None ==> ts == clock - SCAN_INTERVAL_MIN * 60
    ensures file.Some? && ParseTimestamp(file.value).None? ==> ts == clock - SCAN_INTERVAL_MIN * 60
    ensures file.Some? && ParseTimestamp(file.value).Some? ==> ts == ParseTimestamp(file.value).value
  {
    match file
    case None => clock - SCAN_INTERVAL_MIN * 60
    case Some(text) =>
      match ParseTimestamp(text)
      case Some(v) => v
      case None => clock - SCAN_INTERVAL_MIN * 60
  }

  lemma StripUnpadded(s: string)
    requires s != [] && !IsSpace(s[0]) && !IsSpace(s[|s| - 1])
    ensures Strip(s) == s
  {
  }

  /** A run of digits parses as the number it denotes. */
  lemma UnsignedDigits(d: string)
    requires d != [] && AllDigits(d)
    ensures ParseTimestamp(d) == Some(DigitsValue(d) as int)
  {
    assert ParseInteger(d) == Some(DigitsValue(d) as int) by {
      assert IsDigit(d[0]);
    }
    assert Strip(d) == d by {
      assert IsDigit(d[0]) && IsDigit(d[|d| - 1]);
      StripUnpadded(d);
    }
  }

  lemma AfterFirst<T>(x: T, rest: seq<T>)
    ensures ([x] + rest)[1..] == rest
  {
  }

  /** A minus sign and a run of digits parse as the negated number. */
  lemma SignedDigits(d: string)
    requires d != [] && AllDigits(d)
    ensures ParseTimestamp("-" + d) == Some(-(DigitsValue(d) as int))
  {
    var s := "-" + d;
    assert ParseInteger(s) == Some(-(DigitsValue(d) as int)) by {
      AfterFirst('-', d);
    }
    assert Strip(s) == s by {
      assert IsDigit(d[|d| - 1]) && s[|s| - 1] == d[|d| - 1];
      StripUnpadded(s);
    }
  }

  lemma NonNegativeRoundTrip(n: nat)
    ensures ParseTimestamp(RenderTimestamp(n)) == Some(n as int)
  {
    var d := DecimalDigits(n);
    assert RenderTimestamp(n) == d && AllDigits(d);
    UnsignedDigits(d);
    DigitsRoundTrip(n);
  }

  lemma NegativeRoundTrip(n: nat)
    requires n > 0
    ensures ParseTimestamp(RenderTimestamp(-(n as int))) == Some(-(n as int))
  {
    RenderNegative(n);
    SignedRoundTrip(n);
  }

  lemma RenderNegative(n: nat)
    requires n > 0
    ensures RenderTimestamp(-(n as int)) == "-" + DecimalDigits(n)
  {
  }

  lemma SignedRoundTrip(n: nat)
    ensures ParseTimestamp("-" + DecimalDigits(n)) == Some(-(n as int))
  {
    var d := DecimalDigits(n);
    calc {
      ParseTimestamp("-" + d);
    == { SignedDigits(d); }
      Some(-(DigitsValue(d) as int));
    == { DigitsRoundTrip(n); }
      Some(-(n as int));
    }
  }

  /** A saved watermark reads back as itself. */
  lemma TimestampRoundTrip(ts: int)
    ensures ParseTimestamp(RenderTimestamp(ts)) == Some(ts)
  {
    if ts < 0 {
      NegativeRoundTrip(-ts);
    } else {
      NonNegativeRoundTrip(ts);
    }
  }

  /** Whatever the clock says, a saved watermark is what the next run loads. */
  lemma WatermarkReloads(ts: int, clock: int)
    ensures LoadTimestamp(Some(RenderTimestamp(ts)), clock) == ts
  {
    TimestampRoundTrip(ts);
  }
}
