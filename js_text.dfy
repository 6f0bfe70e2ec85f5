/** The string operations the dashboard applies to form input and to filter
    text: `String.prototype.trim`, `split` on one separator character,
    `toLowerCase` (on ASCII letters) and `includes`. */
module JsText {
  import opened Sequences

  /** The characters `trim` removes: the ECMAScript WhiteSpace characters (tab,
      vertical tab, form feed, the byte order mark and every space separator)
      and the LineTerminator characters. */
  predicate IsWhitespace(c: char)
  {
    || c == '\t' || c == '\n' || c == '\U{000B}' || c == '\U{000C}' || c == '\r'
    || c == ' ' || c == '\U{00A0}' || c == '\U{1680}' || ('\U{2000}' <= c <= '\U{200A}')
    || c == '\U{2028}' || c == '\U{2029}' || c == '\U{202F}' || c == '\U{205F}'
    || c == '\U{3000}' || c == '\U{FEFF}'
  }

  function TrimStart(s: string): (r: string)
    ensures |r| <= |s| && r == s[|s| - |r|..]
    ensures r != [] ==> !IsWhitespace(r[0])
  {
    if s != [] && IsWhitespace(s[0]) then TrimStart(s[1..]) else s
  }

  /** What `TrimStart` removes is whitespace. */
  lemma {:induction false} TrimStartRemovesWhitespace(s: string)
    ensures forall k :: 0 <= k < |s| - |TrimStart(s)| ==> IsWhitespace(s[k])
  {
    if s != [] && IsWhitespace(s[0]) {
      TrimStartRemovesWhitespace(s[1..]);
      assert forall k :: 0 < k < |s| ==> s[k] == s[1..][k - 1];
    }
  }

  function TrimEnd(s: string): (r: string)
    ensures |r| <= |s| && r == s[..|r|]
    ensures r != [] ==> !IsWhitespace(r[|r| - 1])
  {
    if s != [] && IsWhitespace(s[|s| - 1]) then TrimEnd(s[..|s| - 1]) else s
  }

  /** What `TrimEnd` removes is whitespace. */
  lemma {:induction false} TrimEndRemovesWhitespace(s: string)
    ensures forall k :: |TrimEnd(s)| <= k < |s| ==> IsWhitespace(s[k])
  {
    if s != [] && IsWhitespace(s[|s| - 1]) {
      TrimEndRemovesWhitespace(s[..|s| - 1]);
    }
  }

  /** `s.trim()`: `s` without its leading and trailing whitespace. */
  function Trim(s: string): (r: string)
    ensures |r| <= |s|
    ensures r != [] ==> !IsWhitespace(r[0]) && !IsWhitespace(r[|r| - 1])
  {
    var t := TrimStart(s);
    var r := TrimEnd(t);
    assert r != [] ==> r[0] == t[0];
    r
  }

  /** The trimmed string is empty exactly when `s` is all whitespace. */
  lemma TrimEmptyIff(s: string)
    ensures Trim(s) == [] <==> forall k :: 0 <= k < |s| ==> IsWhitespace(s[k])
  {
    var t := TrimStart(s);
    TrimStartRemovesWhitespace(s);
    TrimEndRemovesWhitespace(t);
    if Trim(s) == [] {
      forall k | 0 <= k < |s| ensures IsWhitespace(s[k]) {
        if k >= |s| - |t| {
          assert s[k] == t[k - (|s| - |t|)];
        }
      }
    } else {
      var lead := |s| - |t|;
      assert t[0] == s[lead];
      assert !IsWhitespace(s[lead]);
    }
  }

  /** Trimming adds no character. */
  lemma TrimKeepsChars(s: string)
    ensures forall c :: c in Trim(s) ==> c in s
  {
    var t := TrimStart(s);
    var r := TrimEnd(t);
    forall c | c in r ensures c in s {
      var k :| 0 <= k < |r| && r[k] == c;
      assert r[k] == t[k];
      assert t[k] == s[|s| - |t| + k];
    }
  }

  lemma TrimIdempotent(s: string)
    ensures Trim(Trim(s)) == Trim(s)
  {
    var t := Trim(s);
    assert TrimStart(t) == t;
    assert TrimEnd(t) == t;
  }

  /** `s.split(sep)`: the pieces between the separators; there is always at
      least one piece, and none contains the separator. */
  function Split(s: string, sep: char): (r: seq<string>)
    ensures |r| >= 1
    ensures forall k :: 0 <= k < |r| ==> sep !in r[k]
  {
    if s == [] then [[]]
    else
      var rest := Split(s[1..], sep);
      if s[0] == sep then [[]] + rest else [[s[0]] + rest[0]] + rest[1..]
  }

  /** `pieces.join(sep)`. */
  function Join(pieces: seq<string>, sep: char): string
    requires |pieces| >= 1
  {
    if |pieces| == 1 then pieces[0] else pieces[0] + [sep] + Join(pieces[1..], sep)
  }

  /** Joining the pieces gives back the split string. */
  lemma {:induction false} JoinSplit(s: string, sep: char)
    ensures Join(Split(s, sep), sep) == s
  {
    if s != [] {
      var rest := Split(s[1..], sep);
      JoinSplit(s[1..], sep);
      if s[0] == sep {
        assert Split(s, sep)[1..] == rest;
      } else {
        var pieces := Split(s, sep);
        assert pieces[0] == [s[0]] + rest[0];
        if |rest| > 1 {
          assert pieces[1..] == rest[1..];
          assert Join(rest, sep) == rest[0] + [sep] + Join(rest[1..], sep);
        }
      }
    }
  }

  lemma {:induction false} SplitNoSeparator(s: string, sep: char)
    requires sep !in s
    ensures Split(s, sep) == [s]
  {
    if s != [] {
      assert s[0] != sep && sep !in s[1..];
      SplitNoSeparator(s[1..], sep);
      assert [s[0]] + s[1..] == s;
    }
  }

  lemma {:induction false} SplitAtSeparator(p: string, sep: char, rest: string)
    requires sep !in p
    ensures Split(p + [sep] + rest, sep) == [p] + Split(rest, sep)
  {
    if p == [] {
      assert p + [sep] + rest == [sep] + rest;
      assert ([sep] + rest)[1..] == rest;
    } else {
      assert (p + [sep] + rest)[1..] == p[1..] + [sep] + rest;
      SplitAtSeparator(p[1..], sep, rest);
      assert [p[0]] + p[1..] == p;
    }
  }

  /** Splitting a join of separator-free pieces gives back the pieces. */
  lemma {:induction false} SplitJoin(pieces: seq<string>, sep: char)
    requires |pieces| >= 1
    requires forall k :: 0 <= k < |pieces| ==> sep !in pieces[k]
    ensures Split(Join(pieces, sep), sep) == pieces
  {
    if |pieces| == 1 {
      SplitNoSeparator(pieces[0], sep);
    } else {
      SplitJoin(pieces[1..], sep);
      SplitAtSeparator(pieces[0], sep, Join(pieces[1..], sep));
      assert [pieces[0]] + pieces[1..] == pieces;
    }
  }

  function LowerChar(c: char): char
  {
    if 'A' <= c <= 'Z' then (c as int + 32) as char else c
  }

  /** `s.toLowerCase()` on ASCII letters. */
  function ToLower(s: string): (r: string)
    ensures |r| == |s|
  {
    seq(|s|, k requires 0 <= k < |s| => LowerChar(s[k]))
  }

  predicate IsPrefix(p: string, s: string)
  {
    |p| <= |s| && s[..|p|] == p
  }

  /** `s.includes(needle)`. */
  function Includes(s: string, needle: string): bool
  {
    IsPrefix(needle, s) || (s != [] && Includes(s[1..], needle))
  }

  /** `includes` finds exactly the needles that occur at some position. */
  lemma {:induction false} IncludesIff(s: string, needle: string)
    ensures Includes(s, needle) <==> exists i :: 0 <= i <= |s| - |needle| && s[i..][..|needle|] == needle
  {
    if s == [] {
      if needle == [] {
        assert s[0..][..0] == needle;
      }
    } else {
      if IsPrefix(needle, s) {
        assert s[0..] == s;
      }
      IncludesIff(s[1..], needle);
      if Includes(s[1..], needle) {
        var i :| 0 <= i <= |s[1..]| - |needle| && s[1..][i..][..|needle|] == needle;
        assert s[i + 1..] == s[1..][i..];
      }
      if exists i :: 0 <= i <= |s| - |needle| && s[i..][..|needle|] == needle {
        var i :| 0 <= i <= |s| - |needle| && s[i..][..|needle|] == needle;
        if i > 0 {
          assert s[1..][i - 1..] == s[i..];
        }
      }
    }
  }

  function TrimEach(pieces: seq<string>): (r: seq<string>)
    ensures |r| == |pieces|
  {
    seq(|pieces|, k requires 0 <= k < |pieces| => Trim(pieces[k]))
  }

  predicate NonEmpty(s: string)
  {
    s != []
  }

  /** `raw.trim().split(sep).map(d => d.trim()).filter(Boolean)`: the list
      syntax of the application forms. */
  function ParseList(raw: string, sep: char): seq<string>
  {
    Filter(TrimEach(Split(Trim(raw), sep)), NonEmpty)
  }

  /** Every parsed item is non-empty, already trimmed and free of the separator. */
  lemma ParseListItems(raw: string, sep: char, x: string)
    requires x in ParseList(raw, sep)
    ensures x != [] && Trim(x) == x && sep !in x
  {
    var pieces := Split(Trim(raw), sep);
    var trimmed := TrimEach(pieces);
    assert x in trimmed && NonEmpty(x);
    var k :| 0 <= k < |trimmed| && trimmed[k] == x;
    var piece := pieces[k];
    assert x == Trim(piece);
    TrimIdempotent(piece);
    TrimKeepsChars(piece);
    assert sep !in piece;
  }

  /** With a whitespace separator, the list is empty exactly when the trimmed
      input is: the emptiness check on the trimmed text already rejects every
      input that would yield no items. */
  lemma ParseListEmptyIff(raw: string, sep: char)
    requires IsWhitespace(sep)
    ensures ParseList(raw, sep) == [] <==> Trim(raw) == []
  {
    var t := Trim(raw);
    var pieces := Split(t, sep);
    if t != [] {
      assert t[0] != sep;
      var rest := Split(t[1..], sep);
      assert pieces[0] == [t[0]] + rest[0];
      assert pieces[0][0] == t[0];
      var first := Trim(pieces[0]);
      assert !IsWhitespace(pieces[0][0]);
      TrimEmptyIff(pieces[0]);
      assert first != [];
      assert TrimEach(pieces)[0] == first;
      assert first in ParseList(raw, sep);
    }
  }
}
