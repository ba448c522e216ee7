/**
 * The handful of JavaScript string operations the client relies on:
 * `trim`, splitting on `/\s+/`, `charAt(0)`, `toUpperCase`/`toLowerCase`,
 * JavaScript truthiness of an optional string, and the decimal rendering of
 * a non-negative integer in a template literal.
 */
module Text {
  import opened Wrappers

  /** The characters `String.prototype.trim` strips and `/\s/` matches. */
  predicate IsSpace(c: char) {
    || c == ' ' || c == '\t' || c == '\n' || c == '\r'
    || c == '\U{000B}' || c == '\U{000C}' || c == '\U{00A0}' || c == '\U{1680}'
    || ('\U{2000}' <= c <= '\U{200A}')
    || c == '\U{2028}' || c == '\U{2029}' || c == '\U{202F}' || c == '\U{205F}'
    || c == '\U{3000}' || c == '\U{FEFF}'
  }

  /** Empty or made only of whitespace: what `s.trim()` turns into "". */
  predicate IsBlank(s: string) {
    forall i :: 0 <= i < |s| ==> IsSpace(s[i])
  }

  /** A JavaScript string value is truthy exactly when it is non-empty. */
  predicate Truthy(o: Option<string>) {
    o.Some? && o.value != ""
  }

  /** `a || b` over an optional string and a fallback string. */
  function OrElse(a: Option<string>, b: string): (r: string)
    ensures Truthy(a) ==> r == a.value
    ensures !Truthy(a) ==> r == b
  {
    if Truthy(a) then a.value else b
  }

  /** Drops the leading whitespace. */
  function TrimStart(s: string): (r: string)
    ensures |r| <= |s|
    ensures forall i :: 0 <= i < |s| - |r| ==> IsSpace(s[i])
    ensures r == [] || !IsSpace(r[0])
  {
    if s != [] && IsSpace(s[0]) then TrimStart(s[1..]) else s
  }

  /** What `TrimStart` keeps is a suffix of its input. */
  lemma {:induction false} TrimStartSuffix(s: string)
    ensures TrimStart(s) == s[|s| - |TrimStart(s)|..]
  {
    if s != [] && IsSpace(s[0]) {
      TrimStartSuffix(s[1..]);
      assert s[1..][|s| - 1 - |TrimStart(s[1..])|..] == s[|s| - |TrimStart(s)|..];
    }
  }

  /** Drops the trailing whitespace. */
  function TrimEnd(s: string): (r: string)
    ensures |r| <= |s| && r <= s
    ensures forall i :: |r| <= i < |s| ==> IsSpace(s[i])
    ensures r == [] || !IsSpace(r[|r| - 1])
  {
    if s != [] && IsSpace(s[|s| - 1]) then TrimEnd(s[..|s| - 1]) else s
  }

  /** `s.trim()`. */
  function Trim(s: string): (r: string)
    ensures |r| <= |s|
    ensures r == [] || (!IsSpace(r[0]) && !IsSpace(r[|r| - 1]))
    ensures r == [] <==> IsBlank(s)
  {
    var t := TrimStart(s);
    TrimStartSuffix(s);
    var r := TrimEnd(t);
    r
  }

  lemma TrimStartOfClean(s: string)
    requires s == [] || !IsSpace(s[0])
    ensures TrimStart(s) == s
  {
  }

  lemma TrimEndOfClean(s: string)
    requires s == [] || !IsSpace(s[|s| - 1])
    ensures TrimEnd(s) == s
  {
  }

  /** Trimming twice is trimming once. */
  lemma TrimIdempotent(s: string)
    ensures Trim(Trim(s)) == Trim(s)
  {
    var t := TrimStart(s);
    var r := TrimEnd(t);
    assert r == [] || r[0] == t[0];
    TrimStartOfClean(r);
    TrimEndOfClean(r);
  }

  /** `String.prototype.charAt(0)`: the first character, or "" for "". */
  function CharAt0(s: string): (r: string)
    ensures |r| <= 1
    ensures r == [] <==> s == []
    ensures r != [] ==> r[0] == s[0]
  {
    if s == [] then [] else [s[0]]
  }

  /** Upper-casing of one character (ASCII letters only). */
  function UpperChar(c: char): (u: char)
    ensures !('a' <= u <= 'z')
    ensures 'a' <= c <= 'z' ==> u as int == c as int - 32
    ensures !('a' <= c <= 'z') ==> u == c
  {
    if 'a' <= c <= 'z' then (c as int - 32) as char else c
  }

  /** Lower-casing of one character (ASCII letters only). */
  function LowerChar(c: char): (l: char)
    ensures !('A' <= l <= 'Z')
    ensures 'A' <= c <= 'Z' ==> l as int == c as int + 32
    ensures !('A' <= c <= 'Z') ==> l == c
  {
    if 'A' <= c <= 'Z' then (c as int + 32) as char else c
  }

  /** `s.toUpperCase()`. */
  function ToUpper(s: string): (r: string)
    ensures |r| == |s|
    ensures forall i :: 0 <= i < |r| ==> r[i] == UpperChar(s[i])
  {
    seq(|s|, i requires 0 <= i < |s| => UpperChar(s[i]))
  }

  /** `s.toLowerCase()`. */
  function ToLower(s: string): (r: string)
    ensures |r| == |s|
    ensures forall i :: 0 <= i < |r| ==> r[i] == LowerChar(s[i])
  {
    seq(|s|, i requires 0 <= i < |s| => LowerChar(s[i]))
  }

  /**
   * `s.trim().charAt(0).toUpperCase()`: the avatar initial the client draws
   * for a name. It is "" exactly when the name is blank.
   */
  function InitialOf(s: string): (r: string)
    ensures |r| <= 1
    ensures r == [] <==> IsBlank(s)
    ensures !IsBlank(s) ==> r == [UpperChar(s[|s| - |TrimStart(s)|])]
  {
    var t := Trim(s);
    TrimStartSuffix(s);
    assert t != [] ==> t[0] == TrimStart(s)[0];
    ToUpper(CharAt0(t))
  }

  /** A token of `split(/\s+/)` that survives `.filter(Boolean)`. */
  predicate IsWord(w: string) {
    w != [] && forall i :: 0 <= i < |w| ==> !IsSpace(w[i])
  }

  /** Length of the run of non-space characters that starts `s`. */
  function WordLength(s: string): (n: nat)
    ensures n <= |s|
    ensures forall i :: 0 <= i < n ==> !IsSpace(s[i])
    ensures n == |s| || IsSpace(s[n])
  {
    if s == [] || IsSpace(s[0]) then 0 else 1 + WordLength(s[1..])
  }

  /** `s.split(/\s+/).filter(Boolean)`: the maximal runs of non-space characters. */
  function Words(s: string): (ws: seq<string>)
    ensures forall i :: 0 <= i < |ws| ==> IsWord(ws[i])
    decreases |s|
  {
    var t := TrimStart(s);
    if t == [] then []
    else
      var n := WordLength(t);
      [t[..n]] + Words(t[n..])
  }

  /** A run of whitespace that separates two words: what one match of `/\s+/` consumes. */
  predicate IsGap(g: string) {
    g != [] && IsBlank(g)
  }

  /** The words joined by the given gaps: `ws[0] + gaps[0] + ws[1] + gaps[1] + ...`. */
  function JoinWith(ws: seq<string>, gaps: seq<string>): string
    requires |ws| <= |gaps| + 1
  {
    if ws == [] then ""
    else if |ws| == 1 then ws[0]
    else ws[0] + gaps[0] + JoinWith(ws[1..], gaps[1..])
  }

  lemma {:induction false} WordLengthOfWord(w: string, rest: string)
    requires IsWord(w)
    requires rest == [] || IsSpace(rest[0])
    ensures WordLength(w + rest) == |w|
  {
    var s := w + rest;
    assert s[0] == w[0] && !IsSpace(s[0]);
    if |w| > 1 {
      assert s[1..] == w[1..] + rest;
      assert IsWord(w[1..]) by {
        forall i | 0 <= i < |w| - 1 ensures !IsSpace(w[1..][i]) {
          assert w[1..][i] == w[i + 1];
        }
      }
      WordLengthOfWord(w[1..], rest);
    } else {
      assert s[1..] == rest;
      assert rest == [] || IsSpace(s[1..][0]);
    }
  }

  /** Leading whitespace does not change what `TrimStart` keeps. */
  lemma {:induction false} TrimStartBlankPrefix(sep: string, s: string)
    requires IsBlank(sep)
    ensures TrimStart(sep + s) == TrimStart(s)
  {
    if sep == [] {
      assert sep + s == s;
    } else {
      assert (sep + s)[0] == sep[0];
      assert (sep + s)[1..] == sep[1..] + s;
      TrimStartBlankPrefix(sep[1..], s);
    }
  }

  /** Trailing whitespace does not change what `TrimEnd` keeps. */
  lemma {:induction false} TrimEndBlankSuffix(s: string, sep: string)
    requires IsBlank(sep)
    ensures TrimEnd(s + sep) == TrimEnd(s)
  {
    if sep == [] {
      assert s + sep == s;
    } else {
      var x := s + sep;
      assert x[|x| - 1] == sep[|sep| - 1];
      assert x[..|x| - 1] == s + sep[..|sep| - 1];
      TrimEndBlankSuffix(s, sep[..|sep| - 1]);
    }
  }

  /** Leading whitespace produces no token. */
  lemma WordsOfBlankPrefix(sep: string, s: string)
    requires IsBlank(sep)
    ensures Words(sep + s) == Words(s)
  {
    TrimStartBlankPrefix(sep, s);
  }

  /** A word followed by a gap is the first token; splitting goes on after the gap. */
  lemma WordsOfWordThenGap(w: string, sep: string, rest: string)
    requires IsWord(w) && IsGap(sep)
    ensures Words(w + sep + rest) == [w] + Words(rest)
  {
    var s := w + sep + rest;
    assert s == w + (sep + rest);
    assert s[0] == w[0];
    TrimStartOfClean(s);
    WordLengthOfWord(w, sep + rest);
    assert s[..|w|] == w;
    assert s[|w|..] == sep + rest;
    WordsOfBlankPrefix(sep, rest);
  }

  /** Splitting words joined by any whitespace gaps gives the words back. */
  lemma {:induction false} WordsOfJoin(ws: seq<string>, gaps: seq<string>)
    requires |ws| <= |gaps| + 1
    requires forall i :: 0 <= i < |ws| ==> IsWord(ws[i])
    requires forall i :: 0 <= i < |gaps| ==> IsGap(gaps[i])
    ensures Words(JoinWith(ws, gaps)) == ws
  {
    if ws == [] {
    } else if |ws| == 1 {
      var w := ws[0];
      TrimStartOfClean(w);
      WordLengthOfWord(w, []);
      assert w + [] == w;
      assert w[|w|..] == [];
    } else {
      WordsOfWordThenGap(ws[0], gaps[0], JoinWith(ws[1..], gaps[1..]));
      WordsOfJoin(ws[1..], gaps[1..]);
    }
  }

  /** A string without surrounding whitespace is its own trim. */
  lemma TrimOfTrimmed(s: string)
    requires s == [] || (!IsSpace(s[0]) && !IsSpace(s[|s| - 1]))
    ensures Trim(s) == s
  {
    TrimStartOfClean(s);
    TrimEndOfClean(s);
  }

  /** Words joined by gaps neither start nor end with whitespace. */
  lemma {:induction false} JoinWithTrimmed(ws: seq<string>, gaps: seq<string>)
    requires |ws| <= |gaps| + 1
    requires forall i :: 0 <= i < |ws| ==> IsWord(ws[i])
    ensures var s := JoinWith(ws, gaps);
            (ws == [] <==> s == []) && (s == [] || (!IsSpace(s[0]) && !IsSpace(s[|s| - 1])))
  {
    if |ws| > 1 {
      JoinWithTrimmed(ws[1..], gaps[1..]);
      var tail := JoinWith(ws[1..], gaps[1..]);
      var s := ws[0] + gaps[0] + tail;
      assert s[0] == ws[0][0];
      assert s[|s| - 1] == tail[|tail| - 1];
    }
  }

  /** `trim` removes exactly the surrounding whitespace of a string with clean ends. */
  lemma TrimOfPadded(lead: string, s: string, trail: string)
    requires IsBlank(lead) && IsBlank(trail)
    requires s == [] || (!IsSpace(s[0]) && !IsSpace(s[|s| - 1]))
    ensures Trim(lead + s + trail) == s
  {
    if s != [] {
      assert lead + s + trail == lead + (s + trail);
      TrimStartBlankPrefix(lead, s + trail);
      assert (s + trail)[0] == s[0];
      TrimStartOfClean(s + trail);
      TrimEndBlankSuffix(s, trail);
      TrimEndOfClean(s);
    } else {
      assert IsBlank(lead + s + trail);
    }
  }

  function DigitChar(d: nat): (c: char)
    requires d < 10
    ensures '0' <= c <= '9'
  {
    ('0' as int + d) as char
  }

  /** The decimal rendering of `n`, as `${n}` prints a non-negative integer. */
  function Decimal(n: nat): (s: string)
    ensures s != []
    ensures forall i :: 0 <= i < |s| ==> '0' <= s[i] <= '9'
    ensures |s| > 1 ==> s[0] != '0'
    ensures n < 10 <==> |s| == 1
  {
    if n < 10 then [DigitChar(n)] else Decimal(n / 10) + [DigitChar(n % 10)]
  }

  /** Reads a string of decimal digits back as a number. */
  function ParseDecimal(s: string): nat
    requires forall i :: 0 <= i < |s| ==> '0' <= s[i] <= '9'
  {
    if s == [] then 0
    else ParseDecimal(s[..|s| - 1]) * 10 + (s[|s| - 1] as int - '0' as int)
  }

  lemma {:induction false} ParseDecimalOfDecimal(n: nat)
    ensures ParseDecimal(Decimal(n)) == n
  {
    var s := Decimal(n);
    if n >= 10 {
      assert s[..|s| - 1] == Decimal(n / 10);
      ParseDecimalOfDecimal(n / 10);
    } else {
      assert s[..|s| - 1] == [];
    }
  }

  /** Distinct numbers render as distinct strings. */
  lemma DecimalInjective(m: nat, n: nat)
    requires Decimal(m) == Decimal(n)
    ensures m == n
  {
    ParseDecimalOfDecimal(m);
    ParseDecimalOfDecimal(n);
  }
}
