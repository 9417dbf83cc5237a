/** Small shared vocabulary: an optional value and the string operations the
    routes and components rely on (JavaScript `trim`, lower-casing and
    substring search). */
module Base {

  datatype Option<+T> = None | Some(value: T)

  /** The characters JavaScript's `String.prototype.trim` removes (and
      `Number` skips around a numeral): the ASCII white space, the byte-order
      mark, the two Unicode line terminators and every space separator of
      Unicode category Zs, from the no-break space to the ideographic
      space. */
  predicate IsSpace(c: char) {
    c == ' ' || c == '\t' || c == '\n' || c == '\r' || c == '\U{B}' || c == '\U{C}'
    || c == '\U{A0}' || c == '\U{1680}' || '\U{2000}' <= c <= '\U{200A}' || c == '\U{202F}'
    || c == '\U{205F}' || c == '\U{3000}' || c == '\U{FEFF}' || c == '\U{2028}' || c == '\U{2029}'
  }

  predicate AllSpace(s: string) {
    forall i :: 0 <= i < |s| ==> IsSpace(s[i])
  }

  /** Drops leading white space: the result is a suffix of `s`, everything
      dropped was white space, and the result does not start with any. */
  function TrimStart(s: string): (r: string)
    ensures |r| <= |s| && r == s[|s| - |r|..]
    ensures AllSpace(s[..|s| - |r|])
    ensures |r| > 0 ==> !IsSpace(r[0])
  {
    if |s| > 0 && IsSpace(s[0]) then TrimStart(s[1..]) else s
  }

  /** Drops trailing white space: the result is a prefix of `s`, everything
      dropped was white space, and the result does not end with any. */
  function TrimEnd(s: string): (r: string)
    ensures |r| <= |s| && r == s[..|r|]
    ensures AllSpace(s[|r|..])
    ensures |r| > 0 ==> !IsSpace(r[|r| - 1])
  {
    if |s| > 0 && IsSpace(s[|s| - 1]) then TrimEnd(s[..|s| - 1]) else s
  }

  /** JavaScript `s.trim()`. */
  function Trim(s: string): string {
    TrimEnd(TrimStart(s))
  }

  /** A string trims to "" exactly when it is all white space. */
  lemma TrimEmptyIffBlank(s: string)
    ensures Trim(s) == "" <==> AllSpace(s)
  {
    var a := TrimStart(s);
    if Trim(s) == "" {
      assert AllSpace(a[0..]);
      assert |a| == 0;
      assert s[..|s|] == s;
    } else {
      assert |a| > 0;
      assert s[|s| - |a|] == a[0];
    }
  }

  /** Trimming twice trims no more than trimming once. */
  lemma TrimTwice(s: string)
    ensures Trim(Trim(s)) == Trim(s)
  {
    var r := Trim(s);
    if |r| > 0 {
      var a := TrimStart(s);
      assert r == a[..|r|] && |a| > 0;
      assert !IsSpace(r[0]) by { assert r[0] == a[0]; }
      assert TrimStart(r) == r;
    }
  }

  /** A string made of non-space characters is its own trim. */
  lemma TrimNoSpace(s: string)
    requires forall i :: 0 <= i < |s| ==> !IsSpace(s[i])
    ensures Trim(s) == s
  {
    assert TrimStart(s) == s;
    assert TrimEnd(s) == s;
  }

  /** Lower-casing of one character as the store and the browser do it for
      the alphabets this application uses: Latin A-Z, the Cyrillic block
      А-Я, the Cyrillic letters Ѐ-Џ (which hold the Ukrainian Є, І and Ї),
      and the Ukrainian Ґ. Every other character is left alone. */
  function LowerChar(c: char): char {
    if 'A' <= c <= 'Z' then (c as int + 32) as char
    else if '\U{410}' <= c <= '\U{42F}' then (c as int + 32) as char
    else if '\U{400}' <= c <= '\U{40F}' then (c as int + 80) as char
    else if c == '\U{490}' then '\U{491}'
    else c
  }

  /** The characters `LowerChar` changes are letters, and what it yields for
      them is again a letter: a character outside those alphabets is a fixed
      point and is the image of nothing but itself. */
  lemma LowerCharFixesNonLetters(c: char, d: char)
    requires !('A' <= d <= 'Z') && !('a' <= d <= 'z')
    requires !('\U{400}' <= d <= '\U{45F}') && d != '\U{490}' && d != '\U{491}'
    ensures LowerChar(c) == d <==> c == d
  {
  }

  function ToLower(s: string): (r: string)
    ensures |r| == |s|
    ensures forall i :: 0 <= i < |s| ==> r[i] == LowerChar(s[i])
  {
    seq(|s|, i requires 0 <= i < |s| => LowerChar(s[i]))
  }

  predicate StartsWith(s: string, prefix: string) {
    |prefix| <= |s| && s[..|prefix|] == prefix
  }

  /** JavaScript `s.includes(t)`: `t` occurs in `s` at some position. */
  predicate Contains(s: string, t: string)
    decreases |s|
  {
    StartsWith(s, t) || (|s| > 0 && Contains(s[1..], t))
  }

  /** Lower-casing both sides does not change whether a string made only of
      characters `LowerChar` fixes (digits, say) occurs in another. */
  lemma {:induction false} ContainsLowerFixed(s: string, t: string)
    requires forall j :: 0 <= j < |t| ==> forall c: char :: LowerChar(c) == t[j] <==> c == t[j]
    ensures Contains(ToLower(s), t) <==> Contains(s, t)
    decreases |s|
  {
    var ls := ToLower(s);
    assert StartsWith(ls, t) <==> StartsWith(s, t) by {
      if |t| <= |s| {
        if ls[..|t|] == t {
          forall j | 0 <= j < |t| ensures s[j] == t[j] {
            assert LowerChar(s[j]) == t[j];
          }
        }
        if s[..|t|] == t {
          forall j | 0 <= j < |t| ensures ls[j] == t[j] {
            assert s[j] == t[j];
          }
        }
      }
    }
    if |s| > 0 {
      assert ToLower(s[1..]) == ls[1..];
      ContainsLowerFixed(s[1..], t);
    }
  }
}
