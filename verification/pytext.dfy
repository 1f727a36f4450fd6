/**
 * The few Python string operations the scripts rely on, over `string` (a sequence of
 * code points): `str.isspace`, `strip`, `split()` on whitespace, `split(sep)`, `sep.join`,
 * the `in` substring test, `replace(c, '')`, `int()` of a text and `str()` of an integer,
 * and `os.path.basename`.
 */
module PyText {
  import opened Wrappers

  /** `str.isspace` restricted to ASCII: tab, newline, vertical tab, form feed, carriage
      return, the four separators 0x1c..0x1f, and space. */
  predicate IsSpace(c: char) {
    c == ' ' || ('\U{09}' <= c <= '\U{0D}') || ('\U{1C}' <= c <= '\U{1F}')
  }

  /** `s.lstrip()`: drops the leading whitespace and nothing else. */
  function LStrip(s: string): (r: string)
    ensures |r| <= |s| && r == s[|s| - |r|..]
    ensures |r| > 0 ==> !IsSpace(r[0])
    ensures forall i :: 0 <= i < |s| - |r| ==> IsSpace(s[i])
  {
    if |s| > 0 && IsSpace(s[0]) then LStrip(s[1..]) else s
  }

  /** `s.rstrip()`: drops the trailing whitespace and nothing else. */
  function RStrip(s: string): (r: string)
    ensures |r| <= |s| && r == s[..|r|]
    ensures |r| > 0 ==> !IsSpace(r[|r| - 1])
    ensures forall i :: |r| <= i < |s| ==> IsSpace(s[i])
  {
    if |s| > 0 && IsSpace(s[|s| - 1]) then RStrip(s[..|s| - 1]) else s
  }

  /** `s.strip()`. */
  function Strip(s: string): string {
    RStrip(LStrip(s))
  }

  /** The longest prefix of `s` free of whitespace. */
  function Word(s: string): (w: string)
    ensures |w| <= |s| && w == s[..|w|]
    ensures forall i :: 0 <= i < |w| ==> !IsSpace(w[i])
    ensures |w| < |s| ==> IsSpace(s[|w|])
  {
    if |s| == 0 || IsSpace(s[0]) then "" else [s[0]] + Word(s[1..])
  }

  /** `s.split()`: the maximal runs of non-whitespace characters, in order. */
  function Tokens(s: string): (r: seq<string>)
    ensures forall k :: 0 <= k < |r| ==> |r[k]| > 0
    decreases |s|
  {
    if |s| == 0 then []
    else if IsSpace(s[0]) then Tokens(s[1..])
    else
      var w := Word(s);
      assert |w| > 0;
      [w] + Tokens(s[|w|..])
  }

  /** `s.split(sep)` for a non-empty separator: cut at every non-overlapping occurrence of
      `sep`, scanning from the left. */
  function SplitOn(s: string, sep: string): (r: seq<string>)
    requires |sep| > 0
    ensures |r| >= 1
    decreases |s|
  {
    if |s| < |sep| then [s]
    else if s[..|sep|] == sep then [""] + SplitOn(s[|sep|..], sep)
    else
      var rest := SplitOn(s[1..], sep);
      [[s[0]] + rest[0]] + rest[1..]
  }

  /** `sep.join(parts)`. */
  function Join(parts: seq<string>, sep: string): string {
    if |parts| == 0 then ""
    else if |parts| == 1 then parts[0]
    else parts[0] + sep + Join(parts[1..], sep)
  }

  lemma JoinCons(x: string, xs: seq<string>, sep: string)
    ensures Join([x] + xs, sep) == if |xs| == 0 then x else x + sep + Join(xs, sep)
  {
    assert ([x] + xs)[1..] == xs;
  }

  /** Prepending a character to the first piece prepends it to the joined text. */
  lemma JoinPrepend(c: char, parts: seq<string>, sep: string)
    requires |parts| >= 1
    ensures Join([[c] + parts[0]] + parts[1..], sep) == [c] + Join(parts, sep)
  {
    JoinCons([c] + parts[0], parts[1..], sep);
    JoinCons(parts[0], parts[1..], sep);
    assert parts == [parts[0]] + parts[1..];
  }

  /** An empty first piece contributes only the separator. */
  lemma JoinEmptyFirst(pieces: seq<string>, sep: string)
    requires |pieces| >= 1
    ensures Join([""] + pieces, sep) == sep + Join(pieces, sep)
  {
    JoinCons("", pieces, sep);
  }

  /** A text that starts with the separator splits into an empty piece and the rest's pieces. */
  lemma SplitOnSepFirst(s: string, sep: string)
    requires |sep| > 0 && |sep| <= |s| && s[..|sep|] == sep
    ensures SplitOn(s, sep) == [""] + SplitOn(s[|sep|..], sep)
  {
  }

  lemma SepThenTail(s: string, sep: string)
    requires |sep| <= |s| && s[..|sep|] == sep
    ensures s == sep + s[|sep|..]
  {
    assert s == s[..|sep|] + s[|sep|..];
  }

  /** The split of a text that starts with the separator begins with an empty piece. */
  lemma SplitOnAtSep(s: string, sep: string)
    requires |sep| > 0 && |sep| <= |s| && s[..|sep|] == sep
    requires Join(SplitOn(s[|sep|..], sep), sep) == s[|sep|..]
    ensures Join(SplitOn(s, sep), sep) == s
  {
    SplitOnSepFirst(s, sep);
    JoinEmptyFirst(SplitOn(s[|sep|..], sep), sep);
    SepThenTail(s, sep);
  }

  /** Otherwise the first character joins the first piece of the rest. */
  lemma SplitOnAtChar(s: string, sep: string)
    requires |sep| > 0 && |sep| <= |s| && s[..|sep|] != sep
    requires Join(SplitOn(s[1..], sep), sep) == s[1..]
    ensures Join(SplitOn(s, sep), sep) == s
  {
    var rest := SplitOn(s[1..], sep);
    assert SplitOn(s, sep) == [[s[0]] + rest[0]] + rest[1..];
    JoinPrepend(s[0], rest, sep);
    assert s == [s[0]] + s[1..];
  }

  /** Joining the pieces of a split with the same separator gives the text back. */
  lemma {:induction false} JoinSplitOn(s: string, sep: string)
    requires |sep| > 0
    ensures Join(SplitOn(s, sep), sep) == s
    decreases |s|
  {
    if |s| < |sep| {
    } else if s[..|sep|] == sep {
      JoinSplitOn(s[|sep|..], sep);
      SplitOnAtSep(s, sep);
    } else {
      JoinSplitOn(s[1..], sep);
      SplitOnAtChar(s, sep);
    }
  }

  /** A text free of the separator character is a single piece. */
  lemma {:induction false} SplitOnCharFree(s: string, c: char)
    requires c !in s
    ensures SplitOn(s, [c]) == [s]
    decreases |s|
  {
    if |s| >= 1 {
      assert s[..1] != [c] by {
        assert s[0] != c;
      }
      SplitOnCharFree(s[1..], c);
      assert [s[0]] + s[1..] == s;
    }
  }

  /** The first occurrence of the separator character ends the first piece. */
  lemma {:induction false} SplitOnCharAfter(a: string, c: char, b: string)
    requires c !in a
    ensures SplitOn(a + [c] + b, [c]) == [a] + SplitOn(b, [c])
    decreases |a|
  {
    var s := a + [c] + b;
    if |a| == 0 {
      assert s[..1] == [c] && s[1..] == b;
    } else {
      assert s[..1] != [c] by {
        assert s[0] == a[0] != c;
      }
      SplitOnCharAfter(a[1..], c, b);
      assert s[1..] == a[1..] + [c] + b;
      assert [s[0]] + a[1..] == a;
    }
  }

  /** A text without the separator's first character is a single piece. */
  lemma {:induction false} SplitOnFree(s: string, sep: string)
    requires |sep| > 0 && sep[0] !in s
    ensures SplitOn(s, sep) == [s]
    decreases |s|
  {
    if |s| >= |sep| {
      assert s[..|sep|] != sep by {
        assert s[0] in s;
      }
      SplitOnFree(s[1..], sep);
      assert [s[0]] + s[1..] == s;
    }
  }

  /** The first separator after a text free of its first character ends the first piece. */
  lemma {:induction false} SplitOnAfterFree(a: string, sep: string, b: string)
    requires |sep| > 0 && sep[0] !in a
    ensures SplitOn(a + sep + b, sep) == [a] + SplitOn(b, sep)
    decreases |a|
  {
    var s := a + sep + b;
    if |a| == 0 {
      assert s[..|sep|] == sep && s[|sep|..] == b;
    } else {
      assert s[..|sep|] != sep by {
        assert s[0] == a[0] && a[0] in a;
      }
      assert sep[0] !in a[1..] by {
        assert forall i :: 0 <= i < |a[1..]| ==> a[1..][i] == a[i + 1];
      }
      SplitOnAfterFree(a[1..], sep, b);
      assert s[1..] == a[1..] + sep + b;
      assert [s[0]] + a[1..] == a;
    }
  }

  /** Splitting a join gives the pieces back when no piece holds the separator's first
      character. */
  lemma {:induction false} SplitOnJoin(parts: seq<string>, sep: string)
    requires |parts| > 0 && |sep| > 0
    requires forall k :: 0 <= k < |parts| ==> sep[0] !in parts[k]
    ensures SplitOn(Join(parts, sep), sep) == parts
    decreases |parts|
  {
    if |parts| == 1 {
      SplitOnFree(parts[0], sep);
    } else {
      SplitOnJoin(parts[1..], sep);
      SplitOnAfterFree(parts[0], sep, Join(parts[1..], sep));
      assert [parts[0]] + parts[1..] == parts;
    }
  }

  /** No word of `s.split()` holds whitespace. */
  lemma {:induction false} TokensHaveNoSpace(s: string)
    ensures forall k, i :: 0 <= k < |Tokens(s)| && 0 <= i < |Tokens(s)[k]| ==> !IsSpace(Tokens(s)[k][i])
    decreases |s|
  {
    if |s| > 0 {
      if IsSpace(s[0]) {
        TokensHaveNoSpace(s[1..]);
      } else {
        var w := Word(s);
        TokensHaveNoSpace(s[|w|..]);
        assert Tokens(s) == [w] + Tokens(s[|w|..]);
      }
    }
  }

  /** Python's `pat in s`. */
  predicate Contains(s: string, pat: string)
    decreases |s|
  {
    |pat| <= |s| && (s[..|pat|] == pat || Contains(s[1..], pat))
  }

  /** `pat` occurs in `s` at position `i`. */
  predicate OccursAt(s: string, pat: string, i: int) {
    0 <= i <= |s| - |pat| && s[i..i + |pat|] == pat
  }

  /** `pat in s` holds exactly when `pat` occurs at some position of `s`. */
  lemma {:induction false} ContainsIffOccurs(s: string, pat: string)
    ensures Contains(s, pat) <==> exists i :: OccursAt(s, pat, i)
    decreases |s|
  {
    if |pat| <= |s| && s[..|pat|] != pat {
      ContainsIffOccurs(s[1..], pat);
      if exists i :: OccursAt(s, pat, i) {
        var i :| OccursAt(s, pat, i);
        assert i > 0;
        assert OccursAt(s[1..], pat, i - 1);
      }
      if Contains(s[1..], pat) {
        var j :| OccursAt(s[1..], pat, j);
        assert OccursAt(s, pat, j + 1);
      }
    } else if |pat| <= |s| {
      assert OccursAt(s, pat, 0);
    } else {
      assert forall i :: !OccursAt(s, pat, i);
    }
  }

  /** `s.replace(c, '')`: every occurrence of `c` deleted, the rest kept in order. */
  function RemoveAll(s: string, c: char): (r: string)
    ensures c !in r
    ensures |r| <= |s|
  {
    if |s| == 0 then ""
    else (if s[0] == c then "" else [s[0]]) + RemoveAll(s[1..], c)
  }

  /** `s.replace(pat, rep)` for a non-empty `pat`: every non-overlapping occurrence, scanning
      from the left, is replaced by `rep`. */
  function Replace(s: string, pat: string, rep: string): string
    requires |pat| > 0
    decreases |s|
  {
    if |s| < |pat| then s
    else if s[..|pat|] == pat then rep + Replace(s[|pat|..], pat, rep)
    else [s[0]] + Replace(s[1..], pat, rep)
  }

  /** Python's identity `s.replace(pat, rep) == rep.join(s.split(pat))`. */
  lemma {:induction false} ReplaceJoinsSplit(s: string, pat: string, rep: string)
    requires |pat| > 0
    ensures Replace(s, pat, rep) == Join(SplitOn(s, pat), rep)
    decreases |s|
  {
    if |s| < |pat| {
    } else if s[..|pat|] == pat {
      ReplaceJoinsSplit(s[|pat|..], pat, rep);
      JoinEmptyFirst(SplitOn(s[|pat|..], pat), rep);
    } else {
      ReplaceJoinsSplit(s[1..], pat, rep);
      JoinPrepend(s[0], SplitOn(s[1..], pat), rep);
    }
  }

  /** Replacing a pattern by itself changes nothing. */
  lemma ReplaceSelf(s: string, pat: string)
    requires |pat| > 0
    ensures Replace(s, pat, pat) == s
  {
    ReplaceJoinsSplit(s, pat, pat);
    JoinSplitOn(s, pat);
  }

  /** A text without the pattern is left as it is, whatever the replacement. */
  lemma {:induction false} ReplaceAbsent(s: string, pat: string, rep: string)
    requires |pat| > 0 && !Contains(s, pat)
    ensures Replace(s, pat, rep) == s
    decreases |s|
  {
    if |s| >= |pat| {
      ReplaceAbsent(s[1..], pat, rep);
      assert [s[0]] + s[1..] == s;
    }
  }

  /** `s[1:]`: empty for an empty text. */
  function DropFirst(s: string): string {
    if |s| == 0 then "" else s[1..]
  }

  /** `s.startswith(pre)`, i.e. `re.search('^' + pre, s)` for a literal `pre`. */
  predicate StartsWith(s: string, pre: string) {
    |pre| <= |s| && s[..|pre|] == pre
  }

  predicate IsDigit(c: char) {
    '0' <= c <= '9'
  }

  predicate AllDigits(s: string) {
    forall i :: 0 <= i < |s| ==> IsDigit(s[i])
  }

  /** A non-empty run of ASCII digits read as a decimal number, most significant first;
      `None` for anything else. */
  function ParseDigits(ds: string): Option<nat> {
    if |ds| == 0 || !IsDigit(ds[|ds| - 1]) then None
    else if |ds| == 1 then Some(ds[0] as int - '0' as int)
    else match ParseDigits(ds[..|ds| - 1])
      case None => None
      case Some(v) => Some(v * 10 + (ds[|ds| - 1] as int - '0' as int))
  }

  /** Python's `int(s)` for a text: surrounding whitespace is skipped, then an optional sign
      and at least one ASCII digit. `None` stands for the `ValueError` it raises otherwise. */
  function ParseInt(s: string): Option<int>
    decreases |s|
  {
    if |s| > 0 && IsSpace(s[0]) then ParseInt(s[1..])
    else if |s| > 0 && IsSpace(s[|s| - 1]) then ParseInt(s[..|s| - 1])
    else if |s| > 0 && (s[0] == '-' || s[0] == '+') then
      match ParseDigits(s[1..])
      case None => None
      case Some(v) =>
        var w: int := v;
        Some(if s[0] == '-' then -w else w)
    else ParseDigits(s)
  }

  /** The decimal digits of `n` without leading zeros (`str(n)` for `n >= 0`). */
  function NatToString(n: nat): (r: string)
    ensures |r| > 0 && AllDigits(r)
  {
    var d := ['0' + (n % 10) as char];
    if n < 10 then d else NatToString(n / 10) + d
  }

  /** `str(n)` for an integer. */
  function IntToString(n: int): string {
    if n < 0 then "-" + NatToString(-n) else NatToString(n)
  }

  lemma {:induction false} DigitsOfNatToString(n: nat)
    ensures ParseDigits(NatToString(n)) == Some(n)
  {
    var d := ['0' + (n % 10) as char];
    if n >= 10 {
      var p := NatToString(n / 10);
      DigitsOfNatToString(n / 10);
      assert (p + d)[..|p + d| - 1] == p;
    }
  }

  /** `int(str(n)) == n`, also with the newline that ends a written line. */
  lemma ParseIntToString(n: int)
    ensures ParseInt(IntToString(n)) == Some(n)
    ensures ParseInt(IntToString(n) + "\n") == Some(n)
  {
    var s := IntToString(n);
    DigitsOfNatToString(if n < 0 then -n else n);
    if n < 0 {
      assert s[1..] == NatToString(-n);
    }
    assert ParseInt(s) == Some(n);
    var t := s + "\n";
    assert t[..|t| - 1] == s;
  }

  /** `str(n)` holds only digits and the minus sign. */
  lemma IntToStringChars(n: int)
    ensures forall i :: 0 <= i < |IntToString(n)| ==> IsDigit(IntToString(n)[i]) || IntToString(n)[i] == '-'
  {
  }

  /** `os.path.basename(p)`: the text after the last '/'. */
  function Basename(p: string): (r: string)
    ensures '/' !in r
    ensures |r| <= |p| && r == p[|p| - |r|..]
    ensures |r| < |p| ==> p[|p| - |r| - 1] == '/'
  {
    if |p| == 0 || p[|p| - 1] == '/' then "" else Basename(p[..|p| - 1]) + [p[|p| - 1]]
  }

  /** `s.lower()` for ASCII letters. */
  function Lower(s: string): (r: string)
    ensures |r| == |s|
    ensures forall i :: 0 <= i < |s| ==> r[i] == if 'A' <= s[i] <= 'Z' then s[i] - 'A' + 'a' else s[i]
  {
    if |s| == 0 then ""
    else [if 'A' <= s[0] <= 'Z' then s[0] - 'A' + 'a' else s[0]] + Lower(s[1..])
  }
}
