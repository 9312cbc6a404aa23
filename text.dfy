/**
 * The Python string primitives the retrieval code relies on: `str.split()`
 * with no argument, `str.lower()`, the substring test `in`, `str.endswith`
 * and `sep.join(...)`, written out over `seq<char>`.
 */
module Text {

  /** The code points `str.isspace()` accepts, which are the separators of `str.split()`. */
  predicate IsSpace(c: char)
  {
    var x := c as int;
    x == 0x20 || 0x09 <= x <= 0x0D || 0x1C <= x <= 0x1F || x == 0x85 || x == 0xA0
    || x == 0x1680 || 0x2000 <= x <= 0x200A || x == 0x2028 || x == 0x2029
    || x == 0x202F || x == 0x205F || x == 0x3000
  }

  /** A token as `str.split()` produces it: non-empty and free of whitespace. */
  predicate IsWord(w: string)
  {
    w != [] && forall i :: 0 <= i < |w| ==> !IsSpace(w[i])
  }

  /** The longest whitespace-free prefix of `s`. */
  function LeadingWord(s: string): (w: string)
    ensures w <= s
    ensures forall i :: 0 <= i < |w| ==> !IsSpace(w[i])
    ensures |w| < |s| ==> IsSpace(s[|w|])
  {
    if s == [] || IsSpace(s[0]) then [] else [s[0]] + LeadingWord(s[1..])
  }

  /** `s.split()`: the maximal whitespace-free runs of `s`, in order. */
  function Words(s: string): (ws: seq<string>)
    ensures forall i :: 0 <= i < |ws| ==> IsWord(ws[i])
    decreases |s|
  {
    if s == [] then []
    else if IsSpace(s[0]) then Words(s[1..])
    else
      var w := LeadingWord(s);
      [w] + Words(s[|w|..])
  }

  /** `sep.join(xs)`. */
  function JoinWith(sep: string, xs: seq<string>): string
  {
    if |xs| == 0 then ""
    else if |xs| == 1 then xs[0]
    else xs[0] + sep + JoinWith(sep, xs[1..])
  }

  /** A whitespace-free prefix followed by nothing or by whitespace is read back whole. */
  lemma {:induction false} LeadingWordOf(w: string, t: string)
    requires forall i :: 0 <= i < |w| ==> !IsSpace(w[i])
    requires t == [] || IsSpace(t[0])
    ensures LeadingWord(w + t) == w
  {
    if w != [] {
      assert (w + t)[1..] == w[1..] + t;
      LeadingWordOf(w[1..], t);
    }
  }

  /** Joining split tokens with single spaces and splitting again gives the tokens back. */
  lemma {:induction false} WordsOfJoin(ws: seq<string>)
    requires forall i :: 0 <= i < |ws| ==> IsWord(ws[i])
    ensures Words(JoinWith(" ", ws)) == ws
  {
    if |ws| == 1 {
      var w := ws[0];
      LeadingWordOf(w, []);
      assert w + [] == w;
      assert w[|w|..] == [];
    } else if |ws| > 1 {
      var w, rest := ws[0], JoinWith(" ", ws[1..]);
      var s := w + " " + rest;
      assert s == w + (" " + rest);
      LeadingWordOf(w, " " + rest);
      assert s[|w|..] == " " + rest;
      assert (" " + rest)[1..] == rest;
      WordsOfJoin(ws[1..]);
    }
  }

  function LowerChar(c: char): char
  {
    if 'A' <= c <= 'Z' then (c as int + 32) as char else c
  }

  /** `s.lower()` for the ASCII letters. */
  function Lower(s: string): string
  {
    seq(|s|, i requires 0 <= i < |s| => LowerChar(s[i]))
  }

  /** Lowering a string twice is lowering it once. */
  lemma LowerIdempotent(s: string)
    ensures Lower(Lower(s)) == Lower(s)
  {
    var once := Lower(s);
    assert forall i :: 0 <= i < |s| ==> LowerChar(once[i]) == once[i];
  }

  /** Python's `sub in s`. */
  function Contains(s: string, sub: string): bool
    decreases |s|
  {
    sub <= s || (s != [] && Contains(s[1..], sub))
  }

  /** `sub` occurs in `s` starting at offset `i`. */
  predicate OccursAt(s: string, sub: string, i: int)
  {
    0 <= i <= |s| - |sub| && s[i..i + |sub|] == sub
  }

  /** An occurrence at any offset makes `sub in s` true. */
  lemma {:induction false} OccursAtContains(s: string, sub: string, i: int)
    requires OccursAt(s, sub, i)
    ensures Contains(s, sub)
    decreases i
  {
    if i == 0 {
      assert s[..|sub|] == sub;
    } else {
      assert s[1..][i - 1..i - 1 + |sub|] == s[i..i + |sub|];
      OccursAtContains(s[1..], sub, i - 1);
    }
  }

  /** `sub in s` holds exactly when `sub` occurs in `s` at some offset. */
  lemma {:induction false} ContainsIff(s: string, sub: string)
    ensures Contains(s, sub) <==> exists i :: OccursAt(s, sub, i)
    decreases |s|
  {
    forall i | OccursAt(s, sub, i) ensures Contains(s, sub) {
      OccursAtContains(s, sub, i);
    }
    if sub <= s {
      assert OccursAt(s, sub, 0);
    } else if s != [] && Contains(s[1..], sub) {
      ContainsIff(s[1..], sub);
      var j :| OccursAt(s[1..], sub, j);
      assert s[1..][j..j + |sub|] == s[j + 1..j + 1 + |sub|];
      assert OccursAt(s, sub, j + 1);
    }
  }

  /** A string contains anything contained in a suffix of it. */
  lemma {:induction false} ContainsInSuffix(p: string, s: string, sub: string)
    requires Contains(s, sub)
    ensures Contains(p + s, sub)
  {
    if p != [] {
      assert (p + s)[1..] == p[1..] + s;
      ContainsInSuffix(p[1..], s, sub);
    } else {
      assert p + s == s;
    }
  }

  /** `s.endswith(suffix)`. */
  predicate EndsWith(s: string, suffix: string)
  {
    |suffix| <= |s| && s[|s| - |suffix|..] == suffix
  }

}
