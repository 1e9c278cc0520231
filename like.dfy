/**
 * SQL `LIKE` pattern matching, as SQLAlchemy's `ilike` asks of the database:
 * `%` matches any run of characters, `_` matches exactly one character and every
 * other character matches itself. No escape character is declared, so `%` and
 * `_` inside a user-supplied topic act as wildcards too.
 */
module SqlLike {
  import opened Text

  predicate Like(pattern: string, text: string)
    decreases |pattern| + |text|
  {
    if pattern == [] then text == []
    else if pattern[0] == '%' then Like(pattern[1..], text) || (text != [] && Like(pattern, text[1..]))
    else text != [] && (pattern[0] == '_' || pattern[0] == text[0]) && Like(pattern[1..], text[1..])
  }

  /** `text ILIKE pattern`: LIKE after lower-casing both sides. */
  predicate ILike(text: string, pattern: string) {
    Like(Lower(pattern), Lower(text))
  }

  predicate NoWildcard(p: string) {
    forall i :: 0 <= i < |p| ==> p[i] != '%' && p[i] != '_'
  }

  /** A lone `%` matches every text. */
  lemma {:induction false} PercentMatchesAll(t: string)
    ensures Like("%", t)
    decreases |t|
  {
    if t != [] {
      PercentMatchesAll(t[1..]);
    }
  }

  /** A wildcard-free pattern followed by `%` matches exactly the texts it is a prefix of. */
  lemma {:induction false} LikePrefix(p: string, t: string)
    requires NoWildcard(p)
    ensures Like(p + "%", t) <==> p <= t
    decreases |p|
  {
    if p == [] {
      assert p + "%" == "%";
      PercentMatchesAll(t);
    } else {
      assert (p + "%")[0] == p[0];
      assert (p + "%")[1..] == p[1..] + "%";
      if t != [] {
        LikePrefix(p[1..], t[1..]);
        assert p <= t <==> p[0] == t[0] && p[1..] <= t[1..];
      }
    }
  }

  /** For a wildcard-free `p`, `LIKE '%p%'` is a substring test. */
  lemma {:induction false} LikeContains(p: string, t: string)
    requires NoWildcard(p)
    ensures Like("%" + p + "%", t) <==> Contains(t, p)
    decreases |t|
  {
    var q := p + "%";
    assert "%" + p + "%" == "%" + q;
    assert ("%" + q)[0] == '%';
    assert ("%" + q)[1..] == q;
    LikePrefix(p, t);
    if t != [] {
      LikeContains(p, t[1..]);
    }
  }

  lemma LowerNoWildcard(p: string)
    requires NoWildcard(p)
    ensures NoWildcard(Lower(p))
  {
  }

  /** For a wildcard-free topic, `text ILIKE '%topic%'` is a case-insensitive substring test. */
  lemma ILikeIsSubstring(text: string, topic: string)
    requires NoWildcard(topic)
    ensures ILike(text, "%" + topic + "%") <==> Contains(Lower(text), Lower(topic))
  {
    LowerConcat("%" + topic, "%");
    LowerConcat("%", topic);
    assert Lower("%") == "%";
    LowerNoWildcard(topic);
    LikeContains(Lower(topic), Lower(text));
  }

  /** `_` is a wildcard: the topic "_" selects the topic "x", which does not contain "_". */
  lemma UnderscoreMatchesAnyCharacter()
    ensures ILike("x", "%" + "_" + "%")
    ensures !Contains(Lower("x"), Lower("_"))
  {
    assert Lower("x") == "x";
    assert Lower("%_%") == "%_%";
    assert "%" + "_" + "%" == "%_%";
    assert "%_%"[1..] == "_%";
    assert "_%"[1..] == "%";
    assert "x"[1..] == "";
    assert Like("%", "");
    assert Like("_%", "x");
    assert Lower("_") == "_";
    assert !("_" <= "x");
    assert "x"[1..] == [];
  }
}
