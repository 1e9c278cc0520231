/**
 * Character and string primitives shared by the web application and the CSV
 * importer: the whitespace set used by `strip`/`split`/SQL `trim`, ASCII
 * lower-casing, trimming, splitting into words and joining words with one space.
 */
module Text {

  /** The fixed ASCII whitespace set: space, \t \n \v \f \r and the separators 0x1C-0x1F. */
  predicate IsSpace(c: char) {
    c == ' ' || (9 <= c as int <= 13) || (28 <= c as int <= 31)
  }

  predicate IsUpper(c: char) {
    'A' <= c <= 'Z'
  }

  /** Lower-casing of one character (ASCII letters only). */
  function LowerChar(c: char): (r: char)
    ensures !IsUpper(r)
    ensures IsSpace(r) == IsSpace(c)
    ensures !IsUpper(c) ==> r == c
  {
    if IsUpper(c) then (c as int + 32) as char else c
  }

  function Lower(s: string): (r: string)
    ensures |r| == |s|
    ensures forall i :: 0 <= i < |s| ==> r[i] == LowerChar(s[i])
  {
    seq(|s|, i requires 0 <= i < |s| => LowerChar(s[i]))
  }

  predicate NoUpper(s: string) {
    forall i :: 0 <= i < |s| ==> !IsUpper(s[i])
  }

  predicate NoSpace(s: string) {
    forall i :: 0 <= i < |s| ==> !IsSpace(s[i])
  }

  /** A word as `split()` yields it: non-empty, without whitespace. */
  predicate IsWord(w: string) {
    |w| > 0 && NoSpace(w)
  }

  /** Leading whitespace removed: the result is a suffix of `s` and what was cut is all whitespace. */
  function TrimLeft(s: string): (r: string)
    ensures |r| <= |s|
    ensures r != [] ==> !IsSpace(r[0])
  {
    if s != [] && IsSpace(s[0]) then TrimLeft(s[1..]) else s
  }

  /** Trailing whitespace removed: the result is a prefix of `s` and what was cut is all whitespace. */
  function TrimRight(s: string): (r: string)
    ensures |r| <= |s|
    ensures r != [] ==> !IsSpace(r[|r| - 1])
  {
    if s != [] && IsSpace(s[|s| - 1]) then TrimRight(s[..|s| - 1]) else s
  }

  /** Python's `str.strip()` and SQL `trim`, over the whitespace set above. */
  function Trim(s: string): string {
    TrimRight(TrimLeft(s))
  }

  /** The longest prefix of `s` holding no whitespace. */
  function WordPrefix(s: string): (r: string)
    ensures |r| <= |s|
    ensures s != [] && !IsSpace(s[0]) ==> |r| > 0
  {
    if s == [] || IsSpace(s[0]) then [] else [s[0]] + WordPrefix(s[1..])
  }

  /** Python's `str.split()` with no separator: the maximal runs of non-whitespace, in order. */
  function Words(s: string): seq<string>
    decreases |s|
  {
    var t := TrimLeft(s);
    if t == [] then []
    else
      var w := WordPrefix(t);
      [w] + Words(t[|w|..])
  }

  /** Python's `' '.join(ws)`. */
  function JoinWords(ws: seq<string>): string {
    if |ws| == 0 then ""
    else if |ws| == 1 then ws[0]
    else ws[0] + " " + JoinWords(ws[1..])
  }

  /** Every word lower-cased. */
  function LowerAll(ws: seq<string>): (r: seq<string>)
    ensures |r| == |ws|
    ensures forall k :: 0 <= k < |ws| ==> r[k] == Lower(ws[k])
  {
    seq(|ws|, k requires 0 <= k < |ws| => Lower(ws[k]))
  }

  /** `needle` occurs in `hay` at some position (Python's `needle in hay`). */
  predicate Contains(hay: string, needle: string)
    decreases |hay|
  {
    needle <= hay || (hay != [] && Contains(hay[1..], needle))
  }

  // ---------------------------------------------------------------- lemmas

  /** `TrimLeft` keeps a suffix and cuts only whitespace. */
  lemma {:induction false} TrimLeftSpec(s: string)
    ensures TrimLeft(s) == s[|s| - |TrimLeft(s)|..]
    ensures forall i :: 0 <= i < |s| - |TrimLeft(s)| ==> IsSpace(s[i])
    decreases |s|
  {
    if s != [] && IsSpace(s[0]) {
      TrimLeftSpec(s[1..]);
    }
  }

  /** `TrimRight` keeps a prefix and cuts only whitespace. */
  lemma {:induction false} TrimRightSpec(s: string)
    ensures TrimRight(s) == s[..|TrimRight(s)|]
    ensures forall i :: |TrimRight(s)| <= i < |s| ==> IsSpace(s[i])
    decreases |s|
  {
    if s != [] && IsSpace(s[|s| - 1]) {
      TrimRightSpec(s[..|s| - 1]);
    }
  }

  /** `strip()` leaves no whitespace at either end. */
  lemma TrimSpec(s: string)
    ensures Trim(s) != [] ==> !IsSpace(Trim(s)[0]) && !IsSpace(Trim(s)[|Trim(s)| - 1])
  {
    var l := TrimLeft(s);
    TrimRightSpec(l);
    if Trim(s) != [] {
      assert Trim(s)[0] == l[0];
    }
  }

  /** `WordPrefix` is a whitespace-free prefix ending at whitespace or at the end. */
  lemma {:induction false} WordPrefixSpec(s: string)
    ensures WordPrefix(s) == s[..|WordPrefix(s)|]
    ensures NoSpace(WordPrefix(s))
    ensures |WordPrefix(s)| < |s| ==> IsSpace(s[|WordPrefix(s)|])
    decreases |s|
  {
    if s != [] && !IsSpace(s[0]) {
      WordPrefixSpec(s[1..]);
    }
  }

  /** `split()` yields genuine words only. */
  lemma {:induction false} WordsAreWords(s: string)
    ensures forall k :: 0 <= k < |Words(s)| ==> IsWord(Words(s)[k])
    decreases |s|
  {
    var t := TrimLeft(s);
    if t != [] {
      var w := WordPrefix(t);
      WordPrefixSpec(t);
      WordsAreWords(t[|w|..]);
    }
  }

  lemma LowerIsIdentityWithoutUpper(s: string)
    requires NoUpper(s)
    ensures Lower(s) == s
  {
  }

  lemma LowerHasNoUpper(s: string)
    ensures NoUpper(Lower(s))
  {
  }

  lemma LowerConcat(a: string, b: string)
    ensures Lower(a + b) == Lower(a) + Lower(b)
  {
  }

  /** Lower-casing commutes with cutting leading whitespace. */
  lemma {:induction false} TrimLeftLower(s: string)
    ensures TrimLeft(Lower(s)) == Lower(TrimLeft(s))
    decreases |s|
  {
    if s != [] && IsSpace(s[0]) {
      LowerDrop(s, 1);
      TrimLeftLower(s[1..]);
    }
  }

  lemma {:induction false} WordPrefixLower(s: string)
    ensures WordPrefix(Lower(s)) == Lower(WordPrefix(s))
    decreases |s|
  {
    if s != [] && !IsSpace(s[0]) {
      LowerDrop(s, 1);
      WordPrefixLower(s[1..]);
      assert Lower([s[0]] + WordPrefix(s[1..])) == [LowerChar(s[0])] + Lower(WordPrefix(s[1..]));
    }
  }

  /** Lower-casing commutes with dropping a prefix. */
  lemma LowerDrop(s: string, k: nat)
    requires k <= |s|
    ensures Lower(s)[k..] == Lower(s[k..])
  {
  }

  /** Splitting a lower-cased string gives the lower-cased words. */
  lemma {:induction false} WordsLower(s: string)
    ensures Words(Lower(s)) == LowerAll(Words(s))
    decreases |s|
  {
    var t := TrimLeft(s);
    TrimLeftLower(s);
    if t != [] {
      var w := WordPrefix(t);
      var rest := Words(t[|w|..]);
      assert Words(s) == [w] + rest;
      WordPrefixLower(t);
      LowerDrop(t, |w|);
      WordsLower(t[|w|..]);
      LowerAllCons(w, rest);
    }
  }

  lemma LowerAllCons(w: string, rest: seq<string>)
    ensures LowerAll([w] + rest) == [Lower(w)] + LowerAll(rest)
  {
  }

  lemma TrimLeftIdempotent(s: string)
    ensures TrimLeft(TrimLeft(s)) == TrimLeft(s)
  {
  }

  lemma WordsTrimLeft(s: string)
    ensures Words(TrimLeft(s)) == Words(s)
  {
    TrimLeftIdempotent(s);
  }

  lemma {:induction false} TrimLeftAppend(x: string, y: string)
    ensures TrimLeft(x) != [] ==> TrimLeft(x + y) == TrimLeft(x) + y
    ensures TrimLeft(x) == [] ==> TrimLeft(x + y) == TrimLeft(y)
    decreases |x|
  {
    if x != [] && IsSpace(x[0]) {
      assert (x + y)[1..] == x[1..] + y;
      TrimLeftAppend(x[1..], y);
    } else if x == [] {
      assert x + y == y;
    }
  }

  lemma {:induction false} WordPrefixAppend(u: string, y: string)
    requires y == [] || IsSpace(y[0])
    ensures WordPrefix(u + y) == WordPrefix(u)
    decreases |u|
  {
    if u == [] {
      assert u + y == y;
    } else if !IsSpace(u[0]) {
      assert (u + y)[1..] == u[1..] + y;
      WordPrefixAppend(u[1..], y);
    }
  }

  lemma {:induction false} AllSpaceTrimLeft(s: string)
    requires forall i :: 0 <= i < |s| ==> IsSpace(s[i])
    ensures TrimLeft(s) == []
    decreases |s|
  {
    if s != [] {
      AllSpaceTrimLeft(s[1..]);
    }
  }

  /** Trailing whitespace does not change the words. */
  lemma {:induction false} WordsAppendSpace(x: string, sp: string)
    requires forall i :: 0 <= i < |sp| ==> IsSpace(sp[i])
    ensures Words(x + sp) == Words(x)
    decreases |x|
  {
    var t := TrimLeft(x);
    TrimLeftAppend(x, sp);
    if t == [] {
      AllSpaceTrimLeft(sp);
    } else {
      var w := WordPrefix(t);
      WordPrefixAppend(t, sp);
      assert (t + sp)[|w|..] == t[|w|..] + sp;
      WordsAppendSpace(t[|w|..], sp);
    }
  }

  /** Splitting ignores surrounding whitespace: `s.strip().split() == s.split()`. */
  lemma WordsTrim(s: string)
    ensures Words(Trim(s)) == Words(s)
  {
    var l := TrimLeft(s);
    var r := TrimRight(l);
    TrimRightSpec(l);
    assert l == r + l[|r|..];
    WordsAppendSpace(r, l[|r|..]);
    WordsTrimLeft(s);
  }

  lemma WordsSpacePrefix(c: char, x: string)
    requires IsSpace(c)
    ensures Words([c] + x) == Words(x)
  {
    assert ([c] + x)[1..] == x;
    TrimLeftIdempotent(x);
  }

  lemma {:induction false} WordPrefixOfWord(w: string, y: string)
    requires NoSpace(w)
    requires y == [] || IsSpace(y[0])
    ensures WordPrefix(w + y) == w
    decreases |w|
  {
    if w == [] {
      assert w + y == y;
    } else {
      assert (w + y)[1..] == w[1..] + y;
      WordPrefixOfWord(w[1..], y);
    }
  }

  /** A word followed by whitespace (or nothing) splits off as the first word. */
  lemma WordsOfWordThen(w: string, y: string)
    requires IsWord(w)
    requires y == [] || IsSpace(y[0])
    ensures Words(w + y) == [w] + Words(y)
  {
    var s := w + y;
    assert s[0] == w[0];
    assert TrimLeft(s) == s;
    WordPrefixOfWord(w, y);
    assert s[|w|..] == y;
  }

  /** Splitting undoes joining: `' '.join(ws).split() == ws` for genuine words. */
  lemma {:induction false} WordsJoinWords(ws: seq<string>)
    requires forall k :: 0 <= k < |ws| ==> IsWord(ws[k])
    ensures Words(JoinWords(ws)) == ws
    decreases |ws|
  {
    if |ws| == 1 {
      WordsOfWordThen(ws[0], []);
      assert ws[0] + [] == ws[0];
    } else if |ws| > 1 {
      var w, rest := ws[0], JoinWords(ws[1..]);
      assert JoinWords(ws) == w + ([' '] + rest);
      WordsOfWordThen(w, [' '] + rest);
      WordsSpacePrefix(' ', rest);
      WordsJoinWords(ws[1..]);
      assert Words(JoinWords(ws)) == [w] + ws[1..];
      HeadTail(ws);
    }
  }

  lemma HeadTail<T>(s: seq<T>)
    requires |s| > 0
    ensures [s[0]] + s[1..] == s
  {
  }

  /** A string in normal form: no whitespace at either end, no whitespace other than single spaces, no upper case. */
  predicate WellSpaced(s: string) {
    && (s != [] ==> !IsSpace(s[0]) && !IsSpace(s[|s| - 1]))
    && (forall i :: 0 <= i < |s| && IsSpace(s[i]) ==> s[i] == ' ')
    && (forall i :: 0 <= i < |s| - 1 ==> !(IsSpace(s[i]) && IsSpace(s[i + 1])))
    && NoUpper(s)
  }

  /** Joining upper-case-free words with one space yields a string in normal form. */
  lemma {:induction false} JoinWordsWellSpaced(ws: seq<string>)
    requires forall k :: 0 <= k < |ws| ==> IsWord(ws[k]) && NoUpper(ws[k])
    ensures WellSpaced(JoinWords(ws))
    ensures |ws| > 0 ==> JoinWords(ws) != []
    decreases |ws|
  {
    if |ws| > 1 {
      var w, rest := ws[0], JoinWords(ws[1..]);
      JoinWordsWellSpaced(ws[1..]);
      var s := w + " " + rest;
      forall i | 0 <= i < |s| - 1
        ensures !(IsSpace(s[i]) && IsSpace(s[i + 1]))
      {
        if i < |w| - 1 {
          assert s[i] == w[i];
        } else if i == |w| - 1 {
          assert s[i] == w[i];
        } else if i == |w| {
          assert s[i + 1] == rest[0];
        } else {
          assert s[i] == rest[i - |w| - 1] && s[i + 1] == rest[i - |w|];
        }
      }
      forall i | 0 <= i < |s|
        ensures IsSpace(s[i]) ==> s[i] == ' '
      {
        if i < |w| {
          assert s[i] == w[i];
        } else if i > |w| {
          assert s[i] == rest[i - |w| - 1];
        }
      }
      forall i | 0 <= i < |s|
        ensures !IsUpper(s[i])
      {
        if i < |w| {
          assert s[i] == w[i];
        } else if i > |w| {
          assert s[i] == rest[i - |w| - 1];
        }
      }
      assert s[|s| - 1] == rest[|rest| - 1];
    }
  }

  lemma {:induction false} WordPrefixNoUpper(s: string)
    requires NoUpper(s)
    ensures NoUpper(WordPrefix(s))
    decreases |s|
  {
    if s != [] && !IsSpace(s[0]) {
      WordPrefixNoUpper(s[1..]);
    }
  }

  /** The words of an upper-case-free string are upper-case-free. */
  lemma {:induction false} WordsNoUpper(s: string)
    requires NoUpper(s)
    ensures forall k :: 0 <= k < |Words(s)| ==> NoUpper(Words(s)[k])
    decreases |s|
  {
    var t := TrimLeft(s);
    TrimLeftSpec(s);
    if t != [] {
      var w := WordPrefix(t);
      WordPrefixSpec(t);
      WordPrefixNoUpper(t);
      WordsNoUpper(t[|w|..]);
    }
  }

  /** A string in normal form is unchanged by trimming. */
  lemma TrimWellSpaced(s: string)
    requires WellSpaced(s)
    ensures Trim(s) == s
  {
  }

  /** A needle that occurs at some offset `k` of the haystack is contained in it. */
  lemma {:induction false} ContainsAt(hay: string, needle: string, k: nat)
    requires k + |needle| <= |hay| && hay[k..k + |needle|] == needle
    ensures Contains(hay, needle)
    decreases k
  {
    if k == 0 {
      assert needle <= hay;
    } else {
      assert hay[1..][k - 1..k - 1 + |needle|] == needle;
      ContainsAt(hay[1..], needle, k - 1);
    }
  }

  /** `needle` occurs in `hay` starting at offset `k`. */
  predicate OccursAt(hay: string, needle: string, k: int) {
    0 <= k && k + |needle| <= |hay| && hay[k..k + |needle|] == needle
  }

  /** Conversely, `Contains` holds only when the needle occurs at some offset of the haystack. */
  lemma {:induction false} ContainsWitness(hay: string, needle: string)
    requires Contains(hay, needle)
    ensures exists k :: OccursAt(hay, needle, k)
    decreases |hay|
  {
    if needle <= hay {
      assert OccursAt(hay, needle, 0);
    } else {
      ContainsWitness(hay[1..], needle);
      var k :| OccursAt(hay[1..], needle, k);
      assert hay[1..][k..k + |needle|] == hay[k + 1..k + 1 + |needle|];
      assert OccursAt(hay, needle, k + 1);
    }
  }
}
