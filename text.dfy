/** String operations standing in for the JavaScript built-ins the extension
    relies on: toLowerCase, includes, trim, split(',') and join(', ').
    Strings are sequences of characters. */
module Text {

  /** toLowerCase on one character; only the ASCII letters A-Z are folded. */
  function LowerChar(c: char): char {
    if 'A' <= c <= 'Z' then (c as int + 32) as char else c
  }

  predicate IsUpper(c: char) {
    'A' <= c <= 'Z'
  }

  function Lower(s: string): string {
    seq(|s|, i requires 0 <= i < |s| => LowerChar(s[i]))
  }

  /** `hay.includes(needle)`: needle occurs in hay at some position. */
  predicate Contains(hay: string, needle: string) {
    exists i :: 0 <= i <= |hay| && needle <= hay[i..]
  }

  /** A lowercased string holds no upper-case letter, so no string holding
      one can occur in it. */
  lemma LowerExcludesUpper(text: string, w: string, k: nat)
    requires k < |w| && IsUpper(w[k])
    ensures !Contains(Lower(text), w)
  {
    var hay := Lower(text);
    forall i | 0 <= i <= |hay| ensures !(w <= hay[i..]) {
      if i + k < |hay| {
        assert !IsUpper(hay[i..][k]);
      }
    }
  }

  /** The empty string is included in every string. */
  lemma ContainsEmpty(hay: string)
    ensures Contains(hay, "")
  {
    assert "" <= hay[0..];
  }

  /** The characters String.prototype.trim removes: the ECMAScript
      WhiteSpace (tab, vertical tab, form feed, no-break space, byte-order
      mark and the Space_Separator category) and LineTerminator sets. */
  predicate IsSpace(c: char) {
    || c == ' ' || c == '\t' || c == '\n' || c == '\r'
    || c == '\U{000B}' || c == '\U{000C}' || c == '\U{00A0}' || c == '\U{1680}'
    || ('\U{2000}' <= c <= '\U{200A}')
    || c == '\U{2028}' || c == '\U{2029}' || c == '\U{202F}' || c == '\U{205F}'
    || c == '\U{3000}' || c == '\U{FEFF}'
  }

  function TrimStart(s: string): string {
    if |s| > 0 && IsSpace(s[0]) then TrimStart(s[1..]) else s
  }

  function TrimEnd(s: string): string {
    if |s| > 0 && IsSpace(s[|s| - 1]) then TrimEnd(s[..|s| - 1]) else s
  }

  function Trim(s: string): string {
    TrimEnd(TrimStart(s))
  }

  /** Neither end of s is a whitespace character. */
  predicate IsTrimmed(s: string) {
    s == [] || (!IsSpace(s[0]) && !IsSpace(s[|s| - 1]))
  }

  /** TrimStart drops a prefix of whitespace and stops at a non-blank. */
  lemma {:induction false} TrimStartDrops(s: string) returns (i: nat)
    ensures i <= |s| && TrimStart(s) == s[i..]
    ensures i < |s| ==> !IsSpace(s[i])
    ensures forall k :: 0 <= k < i ==> IsSpace(s[k])
    decreases |s|
  {
    if |s| > 0 && IsSpace(s[0]) {
      var k := TrimStartDrops(s[1..]);
      assert s[1..][k..] == s[k + 1..];
      i := k + 1;
    } else {
      i := 0;
    }
  }

  /** TrimEnd keeps a prefix whose last character is not blank. */
  lemma {:induction false} TrimEndKeeps(s: string) returns (j: nat)
    ensures j <= |s| && TrimEnd(s) == s[..j]
    ensures j > 0 ==> !IsSpace(s[j - 1])
    ensures forall k :: j <= k < |s| ==> IsSpace(s[k])
    decreases |s|
  {
    if |s| > 0 && IsSpace(s[|s| - 1]) {
      var k := TrimEndKeeps(s[..|s| - 1]);
      assert s[..|s| - 1][..k] == s[..k];
      j := k;
    } else {
      j := |s|;
    }
  }

  /** The result of trim has no whitespace at either end and is the
      contiguous piece of its input left once a whitespace prefix and a
      whitespace suffix are removed. */
  lemma TrimShape(s: string)
    ensures IsTrimmed(Trim(s))
    ensures exists i, j ::
      && 0 <= i <= j <= |s| && Trim(s) == s[i..j]
      && (forall k :: 0 <= k < i ==> IsSpace(s[k]))
      && (forall k :: j <= k < |s| ==> IsSpace(s[k]))
  {
    var i := TrimStartDrops(s);
    var t := s[i..];
    var j := TrimEndKeeps(t);
    var r := t[..j];
    assert Trim(s) == r;
    assert r == s[i..i + j];
    forall k | i + j <= k < |s| ensures IsSpace(s[k]) {
      assert s[k] == t[k - i];
    }
    if j > 0 {
      assert r[0] == s[i] && r[j - 1] == t[j - 1];
    }
  }

  /** trim leaves an already trimmed string alone. */
  lemma TrimOfTrimmed(s: string)
    requires IsTrimmed(s)
    ensures Trim(s) == s
  {
  }

  /** A leading blank does not change what trim returns. */
  lemma TrimDropsLeadingBlank(s: string)
    ensures Trim([' '] + s) == Trim(s)
  {
    assert ([' '] + s)[1..] == s;
  }

  /** `s.split(',')`: the pieces between commas, in order; never empty. */
  function SplitComma(s: string): (r: seq<string>)
    ensures |r| >= 1
  {
    if s == [] then [""]
    else if s[0] == ',' then [""] + SplitComma(s[1..])
    else
      var rest := SplitComma(s[1..]);
      [[s[0]] + rest[0]] + rest[1..]
  }

  /** `ks.join(', ')`. */
  function JoinComma(ks: seq<string>): string {
    if |ks| == 0 then ""
    else if |ks| == 1 then ks[0]
    else ks[0] + ", " + JoinComma(ks[1..])
  }

  /** Every piece split returns is free of commas. */
  lemma {:induction false} SplitCommaPieces(s: string)
    ensures forall k :: 0 <= k < |SplitComma(s)| ==> ',' !in SplitComma(s)[k]
  {
    if s == [] {
    } else if s[0] == ',' {
      SplitCommaPieces(s[1..]);
    } else {
      SplitCommaPieces(s[1..]);
      var rest := SplitComma(s[1..]);
      var r := [[s[0]] + rest[0]] + rest[1..];
      forall k | 0 <= k < |r| ensures ',' !in r[k] {
        if k > 0 { assert r[k] == rest[k]; }
      }
    }
  }

  /** A comma-free string is split into itself alone. */
  lemma {:induction false} SplitCommaFree(s: string)
    requires ',' !in s
    ensures SplitComma(s) == [s]
  {
    if s != [] {
      SplitCommaFree(s[1..]);
      assert s == [s[0]] + s[1..];
    }
  }

  /** A leading comma ends an empty first piece. */
  lemma SplitCommaLeadingComma(s: string)
    ensures SplitComma([','] + s) == [""] + SplitComma(s)
  {
    assert ([','] + s)[1..] == s;
  }

  /** Any other leading character is prepended to the first piece. */
  lemma SplitCommaLeadingOther(c: char, s: string)
    requires c != ','
    ensures SplitComma([c] + s) == [[c] + SplitComma(s)[0]] + SplitComma(s)[1..]
  {
    assert ([c] + s)[1..] == s;
  }

  /** A comma in front of a string whose pieces are `ra + rb` adds an
      empty first piece. */
  lemma SplitCommaCommaOnto(x: string, ra: seq<string>, rb: seq<string>)
    requires SplitComma(x) == ra + rb
    ensures SplitComma([','] + x) == [""] + ra + rb
  {
    SplitCommaLeadingComma(x);
  }

  /** Any other character in front of a string whose pieces are `ra + rb`
      (with `ra` non-empty) goes to the first piece of `ra`. */
  lemma SplitCommaCharOnto(c: char, x: string, ra: seq<string>, rb: seq<string>)
    requires c != ',' && |ra| >= 1
    requires SplitComma(x) == ra + rb
    ensures SplitComma([c] + x) == [[c] + ra[0]] + ra[1..] + rb
  {
    assert ([c] + x)[1..] == x;
    assert (ra + rb)[0] == ra[0] && (ra + rb)[1..] == ra[1..] + rb;
  }

  /** A comma splits a string into the pieces before it followed by the
      pieces after it. */
  lemma {:induction false} SplitCommaConcat(a: string, b: string)
    ensures SplitComma(a + [','] + b) == SplitComma(a) + SplitComma(b)
  {
    if a == [] {
      assert a + [','] + b == [','] + b;
      SplitCommaLeadingComma(b);
    } else {
      SplitCommaConcat(a[1..], b);
      var x := a[1..] + [','] + b;
      assert a == [a[0]] + a[1..];
      assert a + [','] + b == [a[0]] + x;
      if a[0] == ',' {
        SplitCommaCommaOnto(x, SplitComma(a[1..]), SplitComma(b));
        SplitCommaLeadingComma(a[1..]);
      } else {
        SplitCommaCharOnto(a[0], x, SplitComma(a[1..]), SplitComma(b));
        SplitCommaLeadingOther(a[0], a[1..]);
      }
    }
  }

  /** A leading blank goes to the first piece of a split. */
  lemma SplitCommaLeadingBlank(s: string)
    ensures SplitComma([' '] + s) == [[' '] + SplitComma(s)[0]] + SplitComma(s)[1..]
  {
    assert ([' '] + s)[1..] == s;
  }
}
