/** The few Rust `str` operations the dump reader and the renderer rely on,
    written out with the semantics of the Rust standard library:
    `split`, `lines`, `replace`, `contains`, `split_whitespace`,
    `parse::<u64>`, and the decimal formatting of an unsigned integer. */
module Strings {
  import opened Wrappers

  // ---------------------------------------------------------------------
  // split and join

  /** `s.split(c)`: the pieces between the occurrences of `c`; a string
      without `c` (the empty string included) is one piece. */
  function Split(s: string, c: char): (pieces: seq<string>)
    ensures |pieces| >= 1
    decreases |s|
  {
    if s == [] then [""]
    else
      var rest := Split(s[1..], c);
      if s[0] == c then [""] + rest
      else [[s[0]] + rest[0]] + rest[1..]
  }

  /** `parts.join(sep)` */
  function JoinWith(parts: seq<string>, sep: string): string
    decreases |parts|
  {
    if parts == [] then ""
    else if |parts| == 1 then parts[0]
    else parts[0] + sep + JoinWith(parts[1..], sep)
  }

  /** The concatenation of all parts, `parts.join("")`. */
  function Concat(parts: seq<string>): string
    decreases |parts|
  {
    if parts == [] then "" else parts[0] + Concat(parts[1..])
  }

  lemma {:induction false} ConcatAppend(parts: seq<string>, last: string)
    ensures Concat(parts + [last]) == Concat(parts) + last
    decreases |parts|
  {
    if parts == [] {
      assert [] + [last] == [last];
    } else {
      assert (parts + [last])[1..] == parts[1..] + [last];
      ConcatAppend(parts[1..], last);
    }
  }

  predicate Free(s: string, c: char) {
    forall i :: 0 <= i < |s| ==> s[i] != c
  }

  /** Splitting and joining on the same character are inverse: joining the
      pieces gives back the string, and no piece holds the separator. */
  lemma {:induction false} JoinSplit(s: string, c: char)
    ensures JoinWith(Split(s, c), [c]) == s
    ensures forall k :: 0 <= k < |Split(s, c)| ==> Free(Split(s, c)[k], c)
    decreases |s|
  {
    if s != [] {
      var rest := Split(s[1..], c);
      JoinSplit(s[1..], c);
      if s[0] == c {
        assert Split(s, c) == [""] + rest;
        assert ([""] + rest)[1..] == rest;
      } else {
        var first := [s[0]] + rest[0];
        assert Split(s, c) == [first] + rest[1..];
        if |rest| == 1 {
          assert JoinWith(Split(s, c), [c]) == first;
        } else {
          assert ([first] + rest[1..])[1..] == rest[1..];
          assert JoinWith(rest, [c]) == rest[0] + [c] + JoinWith(rest[1..], [c]);
        }
        forall k | 0 <= k < |Split(s, c)|
          ensures Free(Split(s, c)[k], c)
        {
          if k > 0 {
            assert Split(s, c)[k] == rest[k];
          }
        }
      }
    }
  }

  lemma {:induction false} SplitFree(p: string, c: char)
    requires Free(p, c)
    ensures Split(p, c) == [p]
    decreases |p|
  {
    if p != [] {
      SplitFree(p[1..], c);
      assert [p[0]] + p[1..] == p;
    }
  }

  lemma {:induction false} SplitFreeThen(p: string, c: char, t: string)
    requires Free(p, c)
    ensures Split(p + [c] + t, c) == [p] + Split(t, c)
    decreases |p|
  {
    if p == [] {
      assert p + [c] + t == [c] + t;
      assert ([c] + t)[1..] == t;
    } else {
      assert (p + [c] + t)[1..] == p[1..] + [c] + t;
      SplitFreeThen(p[1..], c, t);
      assert [p[0]] + p[1..] == p;
    }
  }

  /** The other direction: splitting a join of separator-free parts gives
      the parts back. */
  lemma {:induction false} SplitJoin(parts: seq<string>, c: char)
    requires |parts| >= 1
    requires forall k :: 0 <= k < |parts| ==> Free(parts[k], c)
    ensures Split(JoinWith(parts, [c]), c) == parts
    decreases |parts|
  {
    if |parts| == 1 {
      SplitFree(parts[0], c);
    } else {
      SplitJoin(parts[1..], c);
      SplitFreeThen(parts[0], c, JoinWith(parts[1..], [c]));
      assert [parts[0]] + parts[1..] == parts;
    }
  }

  /** The last piece of a join ends the joined string, right after a
      separator when there is more than one piece. */
  lemma {:induction false} JoinWithLast(parts: seq<string>, sep: string)
    requires |parts| >= 1
    ensures var j := JoinWith(parts, sep); var last := parts[|parts| - 1];
      && |last| <= |j| && j[|j| - |last|..] == last
      && (|parts| > 1 ==> |last| + |sep| <= |j| && j[|j| - |last| - |sep|..|j| - |last|] == sep)
    decreases |parts|
  {
    if |parts| > 1 {
      JoinWithLast(parts[1..], sep);
      var rest := JoinWith(parts[1..], sep);
      var j := JoinWith(parts, sep);
      assert j == parts[0] + sep + rest;
      var last := parts[|parts| - 1];
      assert last == parts[1..][|parts[1..]| - 1];
      assert j[|j| - |last|..] == rest[|rest| - |last|..];
      if |parts| == 2 {
        assert rest == last;
        assert j[|j| - |last| - |sep|..|j| - |last|] == sep;
      } else {
        assert j[|j| - |last| - |sep|..|j| - |last|] == rest[|rest| - |last| - |sep|..|rest| - |last|];
      }
    }
  }

  // ---------------------------------------------------------------------
  // lines

  function StripCarriageReturn(line: string): string {
    if |line| > 0 && line[|line| - 1] == '\r' then line[..|line| - 1] else line
  }

  /** `s.lines()`: split at `\n`, drop one `\r` before each `\n`, and do not
      yield an empty piece after a final `\n` (so "" has no lines). */
  function Lines(s: string): (lines: seq<string>)
  {
    var pieces := Split(s, '\n');
    var terminated := pieces[..|pieces| - 1];
    var last := pieces[|pieces| - 1];
    seq(|terminated|, i requires 0 <= i < |terminated| => StripCarriageReturn(terminated[i]))
      + (if last == "" then [] else [last])
  }

  /** A character the string does not hold is held by none of its pieces. */
  lemma {:induction false} SplitKeepsFree(s: string, c: char, d: char)
    requires Free(s, d)
    ensures forall k :: 0 <= k < |Split(s, c)| ==> Free(Split(s, c)[k], d)
    decreases |s|
  {
    if s != [] {
      SplitKeepsFree(s[1..], c, d);
      var rest := Split(s[1..], c);
      if s[0] != c {
        assert Free([s[0]] + rest[0], d);
      }
    }
  }

  lemma {:induction false} JoinWithAppend(parts: seq<string>, sep: string, last: string)
    requires parts != []
    ensures JoinWith(parts + [last], sep) == JoinWith(parts, sep) + sep + last
    decreases |parts|
  {
    if |parts| > 1 {
      assert (parts + [last])[1..] == parts[1..] + [last];
      JoinWithAppend(parts[1..], sep, last);
    }
  }

  /** For text without carriage returns, no line holds a line break, and
      joining the lines with line breaks gives back the text, up to the one
      final line break `lines` drops. */
  lemma LinesJoin(s: string)
    requires Free(s, '\r')
    ensures forall k :: 0 <= k < |Lines(s)| ==> Free(Lines(s)[k], '\n')
    ensures JoinWith(Lines(s), "\n") + (if s != [] && s[|s| - 1] == '\n' then "\n" else "") == s
  {
    var pieces := Split(s, '\n');
    var terminated := pieces[..|pieces| - 1];
    var last := pieces[|pieces| - 1];
    JoinSplit(s, '\n');
    SplitKeepsFree(s, '\n', '\r');
    var stripped := seq(|terminated|, i requires 0 <= i < |terminated| => StripCarriageReturn(terminated[i]));
    assert stripped == terminated by {
      forall i | 0 <= i < |terminated| ensures stripped[i] == terminated[i] {
        assert Free(pieces[i], '\r');
      }
    }
    assert pieces == terminated + [last];
    if last == "" {
      assert Lines(s) == terminated;
      if terminated != [] {
        JoinWithAppend(terminated, "\n", "");
        assert s == JoinWith(terminated, "\n") + "\n";
        assert s[|s| - 1] == '\n';
      }
    } else {
      assert Lines(s) == pieces;
      JoinWithLast(pieces, "\n");
      assert s[|s| - 1] == last[|last| - 1];
    }
  }

  // ---------------------------------------------------------------------
  // decimal numbers

  const U64_LIMIT: nat := 0x1_0000_0000_0000_0000

  predicate IsDigit(c: char) {
    '0' <= c <= '9'
  }

  predicate AllDigits(s: string) {
    forall i :: 0 <= i < |s| ==> IsDigit(s[i])
  }

  function DigitsValue(d: string): nat
    requires AllDigits(d)
    decreases |d|
  {
    if d == [] then 0
    else DigitsValue(d[..|d| - 1]) * 10 + (d[|d| - 1] as int - '0' as int)
  }

  /** `s.parse::<u64>()`: an optional `+`, then one or more ASCII digits,
      with a value below 2^64; anything else is a parse error. */
  function ParseU64(s: string): (r: Option<nat>)
    ensures r.Some? ==> r.value < U64_LIMIT
  {
    var digits := if |s| > 0 && s[0] == '+' then s[1..] else s;
    if digits == [] || !AllDigits(digits) then None
    else if DigitsValue(digits) < U64_LIMIT then Some(DigitsValue(digits))
    else None
  }

  function DigitChar(d: nat): char
    requires d < 10
  {
    ('0' as int + d) as char
  }

  /** The `Display` form of an unsigned integer: decimal, no sign, no
      leading zeros. */
  function NatToString(n: nat): (s: string)
    decreases n
  {
    if n < 10 then [DigitChar(n)] else NatToString(n / 10) + [DigitChar(n % 10)]
  }

  lemma {:induction false} NatToStringDigits(n: nat)
    ensures |NatToString(n)| >= 1
    ensures AllDigits(NatToString(n))
    ensures DigitsValue(NatToString(n)) == n
    decreases n
  {
    if n >= 10 {
      NatToStringDigits(n / 10);
      var s := NatToString(n);
      assert s[..|s| - 1] == NatToString(n / 10);
    }
  }

  /** Formatting and parsing a number are inverse on the u64 range. */
  lemma NatToStringParses(n: nat)
    requires n < U64_LIMIT
    ensures ParseU64(NatToString(n)) == Some(n)
  {
    NatToStringDigits(n);
  }

  // ---------------------------------------------------------------------
  // search and replace

  predicate OccursAt(s: string, sub: string, i: nat) {
    i + |sub| <= |s| && s[i..i + |sub|] == sub
  }

  /** `s.contains(sub)` */
  function Contains(s: string, sub: string): bool
    decreases |s|
  {
    if |sub| > |s| then false
    else if s[..|sub|] == sub then true
    else if s == [] then false
    else Contains(s[1..], sub)
  }

  lemma {:induction false} ContainsOccurs(s: string, sub: string)
    ensures Contains(s, sub) <==> exists i: nat :: OccursAt(s, sub, i)
    decreases |s|
  {
    if |sub| > |s| {
    } else if s[..|sub|] == sub {
      assert OccursAt(s, sub, 0);
    } else if s == [] {
    } else {
      ContainsOccurs(s[1..], sub);
      if Contains(s[1..], sub) {
        var i: nat :| OccursAt(s[1..], sub, i);
        assert s[i + 1..i + 1 + |sub|] == s[1..][i..i + |sub|];
        assert OccursAt(s, sub, i + 1);
      }
      if i: nat :| OccursAt(s, sub, i) {
        assert i != 0;
        assert s[1..][i - 1..i - 1 + |sub|] == s[i..i + |sub|];
        assert OccursAt(s[1..], sub, i - 1);
      }
    }
  }

  /** `s.replace(pat, rep)` for a non-empty pattern: every occurrence, found
      left to right without overlap, is replaced. */
  function ReplaceAll(s: string, pat: string, rep: string): string
    requires |pat| > 0
    decreases |s|
  {
    if |s| < |pat| then s
    else if s[..|pat|] == pat then rep + ReplaceAll(s[|pat|..], pat, rep)
    else [s[0]] + ReplaceAll(s[1..], pat, rep)
  }

  /** Replacing one character by another keeps the length and changes
      exactly the positions that held the replaced character. */
  lemma {:induction false} ReplaceCharPointwise(s: string, a: char, b: char)
    ensures |ReplaceAll(s, [a], [b])| == |s|
    ensures forall i :: 0 <= i < |s| ==>
      ReplaceAll(s, [a], [b])[i] == (if s[i] == a then b else s[i])
    decreases |s|
  {
    if |s| >= 1 {
      ReplaceCharPointwise(s[1..], a, b);
      var r := ReplaceAll(s, [a], [b]);
      assert r == [if s[0] == a then b else s[0]] + ReplaceAll(s[1..], [a], [b]);
      forall i | 0 < i < |s|
        ensures r[i] == (if s[i] == a then b else s[i])
      {
        assert s[1..][i - 1] == s[i];
      }
    }
  }

  /** A string with no occurrence of the pattern is left as it is. */
  lemma {:induction false} ReplaceAbsent(s: string, pat: string, rep: string)
    requires |pat| > 0
    requires !Contains(s, pat)
    ensures ReplaceAll(s, pat, rep) == s
    decreases |s|
  {
    if |s| >= |pat| {
      ReplaceAbsent(s[1..], pat, rep);
      assert [s[0]] + s[1..] == s;
    }
  }

  // ---------------------------------------------------------------------
  // whitespace

  /** `char::is_whitespace`: the Unicode White_Space property. */
  predicate IsWhitespace(c: char) {
    || ('\t' <= c <= '\r') || c == ' ' || c == '\U{0085}' || c == '\U{00A0}'
    || c == '\U{1680}' || ('\U{2000}' <= c <= '\U{200A}') || c == '\U{2028}'
    || c == '\U{2029}' || c == '\U{202F}' || c == '\U{205F}' || c == '\U{3000}'
  }

  predicate NoWhitespace(s: string) {
    forall i :: 0 <= i < |s| ==> !IsWhitespace(s[i])
  }

  function SkipWhitespace(s: string): string
    decreases |s|
  {
    if s != [] && IsWhitespace(s[0]) then SkipWhitespace(s[1..]) else s
  }

  function TakeWord(s: string): string
    decreases |s|
  {
    if s == [] || IsWhitespace(s[0]) then "" else [s[0]] + TakeWord(s[1..])
  }

  /** `s.split_whitespace().next().unwrap_or("")` */
  function FirstWord(s: string): string {
    TakeWord(SkipWhitespace(s))
  }

  /** `w` stands at position `k` of `s` as the first whitespace-separated
      token: only whitespace before it, a whitespace character or the end
      after it, and it is empty only when `s` is all whitespace. */
  predicate FirstTokenAt(s: string, w: string, k: nat) {
    && k + |w| <= |s|
    && s[k..k + |w|] == w
    && NoWhitespace(w)
    && (forall j :: 0 <= j < k ==> IsWhitespace(s[j]))
    && (k + |w| == |s| || IsWhitespace(s[k + |w|]))
    && (w == "" ==> k == |s|)
  }

  lemma {:induction false} TakeWordIsWord(s: string)
    ensures |TakeWord(s)| <= |s| && s[..|TakeWord(s)|] == TakeWord(s)
    ensures NoWhitespace(TakeWord(s))
    ensures |TakeWord(s)| == |s| || IsWhitespace(s[|TakeWord(s)|])
    decreases |s|
  {
    if s != [] && !IsWhitespace(s[0]) {
      TakeWordIsWord(s[1..]);
      var w := TakeWord(s);
      assert w == [s[0]] + TakeWord(s[1..]);
      forall i | 0 < i < |w| ensures !IsWhitespace(w[i]) {
        assert w[i] == TakeWord(s[1..])[i - 1];
      }
    }
  }

  lemma {:induction false} SkipWhitespaceIsSuffix(s: string) returns (k: nat)
    ensures k <= |s| && SkipWhitespace(s) == s[k..]
    ensures forall j :: 0 <= j < k ==> IsWhitespace(s[j])
    ensures k < |s| ==> !IsWhitespace(s[k])
    decreases |s|
  {
    if s != [] && IsWhitespace(s[0]) {
      var k' := SkipWhitespaceIsSuffix(s[1..]);
      k := k' + 1;
      assert s[1..][k'..] == s[k..];
      forall j | 0 < j < k ensures IsWhitespace(s[j]) {
        assert s[j] == s[1..][j - 1];
      }
    } else {
      k := 0;
    }
  }

  /** A string without whitespace is its own first token. */
  lemma {:induction false} FirstWordOfWord(s: string)
    requires NoWhitespace(s)
    ensures FirstWord(s) == s
  {
    assert SkipWhitespace(s) == s;
    TakeWordOfWord(s);
  }

  lemma {:induction false} TakeWordOfWord(s: string)
    requires NoWhitespace(s)
    ensures TakeWord(s) == s
    decreases |s|
  {
    if s != [] {
      TakeWordOfWord(s[1..]);
      assert [s[0]] + s[1..] == s;
    }
  }

  /** The token `split_whitespace` yields first is the first maximal run
      of non-whitespace characters. */
  lemma FirstWordIsFirstToken(s: string)
    ensures exists k: nat :: FirstTokenAt(s, FirstWord(s), k)
  {
    var k := SkipWhitespaceIsSuffix(s);
    var rest := s[k..];
    TakeWordIsWord(rest);
    var w := FirstWord(s);
    assert s[k..k + |w|] == rest[..|w|];
    assert k + |w| < |s| ==> s[k + |w|] == rest[|w|];
    assert FirstTokenAt(s, w, k);
  }

  // ---------------------------------------------------------------------
  // case

  function LowerChar(c: char): char {
    if 'A' <= c <= 'Z' then (c as int + 32) as char else c
  }

  /** `s.to_lowercase()`, restricted to the ASCII letters. */
  function ToLower(s: string): (r: string)
  {
    seq(|s|, i requires 0 <= i < |s| => LowerChar(s[i]))
  }

  /** Lowercasing keeps the length, changes exactly the uppercase ASCII
      letters, and a second application changes nothing. */
  lemma ToLowerChanges(s: string)
    ensures |ToLower(s)| == |s|
    ensures forall i :: 0 <= i < |s| ==> (ToLower(s)[i] != s[i] <==> 'A' <= s[i] <= 'Z')
    ensures ToLower(ToLower(s)) == ToLower(s)
  {
  }
}
