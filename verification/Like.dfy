/**
 LIKE patterns: the escaping of internal/dao/{postgres,sqlite}/like.go against a
 matcher for `LIKE ... ESCAPE '\'`, and the case folding the queries apply.
 */
module Like {

  const ESCAPE := '\\'

  predicate Special(c: char) {
    c == ESCAPE || c == '%' || c == '_'
  }

  /** Each backslash, percent sign and underscore gets a backslash in front. */
  function EscapeLike(s: string): string {
    if s == [] then []
    else (if Special(s[0]) then [ESCAPE, s[0]] else [s[0]]) + EscapeLike(s[1..])
  }

  /** Whether `t` matches pattern `p`; a pattern that ends in its escape matches nothing. */
  predicate Matches(p: string, t: string)
    decreases |p|, |t|
  {
    if p == [] then t == []
    else if p[0] == ESCAPE then |p| > 1 && t != [] && t[0] == p[1] && Matches(p[2..], t[1..])
    else if p[0] == '%' then Matches(p[1..], t) || (t != [] && Matches(p, t[1..]))
    else if p[0] == '_' then t != [] && Matches(p[1..], t[1..])
    else t != [] && t[0] == p[0] && Matches(p[1..], t[1..])
  }

  /** `s` stands somewhere in `t`. */
  predicate Occurs(s: string, t: string) {
    exists i :: 0 <= i <= |t| - |s| && s <= t[i..]
  }

  function LowerChar(c: char): char {
    if 'A' <= c <= 'Z' then c - 'A' + 'a' else c
  }

  function Lower(s: string): (r: string)
    ensures |r| == |s|
  {
    seq(|s|, i requires 0 <= i < |s| => LowerChar(s[i]))
  }

  function Contains(s: string): string {
    "%" + EscapeLike(s) + "%"
  }

  lemma ConcatAssociates(a: string, b: string, c: string)
    ensures (a + b) + c == a + (b + c) && (a + (b + c))[|a|..] == b + c
  {
  }

  lemma EscapedHead(s: string, p: string)
    requires s != []
    ensures var q, rest := EscapeLike(s) + p, EscapeLike(s[1..]) + p;
            if Special(s[0]) then q == [ESCAPE, s[0]] + rest && q[2..] == rest
            else q == [s[0]] + rest && q[1..] == rest
  {
    ConcatAssociates(if Special(s[0]) then [ESCAPE, s[0]] else [s[0]], EscapeLike(s[1..]), p);
  }

  /** An escaped literal matches itself and hands the rest of the text to the rest of the pattern. */
  lemma {:induction false} EscapedPrefix(s: string, p: string, t: string)
    ensures Matches(EscapeLike(s) + p, t) <==> s <= t && Matches(p, t[|s|..])
  {
    if s == [] {
      assert EscapeLike(s) + p == p && t[0..] == t;
    } else {
      var rest := EscapeLike(s[1..]) + p;
      if t != [] {
        EscapedPrefix(s[1..], p, t[1..]);
        if |s| <= |t| {
          assert t[1..][|s| - 1..] == t[|s|..];
        }
        assert s <= t <==> s[0] == t[0] && s[1..] <= t[1..];
      }
      EscapedHead(s, p);
    }
  }

  /** A percent sign matches any prefix at all. */
  lemma {:induction false} Percent(p: string, t: string)
    ensures Matches("%" + p, t) <==> exists i :: 0 <= i <= |t| && Matches(p, t[i..])
    decreases |t|
  {
    var q := "%" + p;
    assert q[1..] == p && q[0] == '%';
    assert t[0..] == t;
    if t != [] {
      Percent(p, t[1..]);
      if Matches(q, t[1..]) {
        var i :| 0 <= i <= |t[1..]| && Matches(p, t[1..][i..]);
        assert t[1..][i..] == t[i + 1..];
      }
      if i :| 0 <= i <= |t| && Matches(p, t[i..]) {
        if i > 0 {
          assert t[1..][i - 1..] == t[i..];
        }
      }
    }
  }

  lemma PercentAlone(t: string)
    ensures Matches("%", t)
  {
    assert "%" == "%" + [];
    Percent([], t);
    assert t[|t|..] == [];
  }

  /** The pattern built from `s` matches exactly the texts that contain `s`, whatever characters `s` holds. */
  lemma ContainsMeansOccurs(s: string, t: string)
    ensures Matches(Contains(s), t) <==> Occurs(s, t)
  {
    var tail := EscapeLike(s) + "%";
    assert Contains(s) == "%" + tail;
    Percent(tail, t);
    forall i | 0 <= i <= |t|
      ensures Matches(tail, t[i..]) <==> s <= t[i..]
    {
      EscapedPrefix(s, "%", t[i..]);
      if |s| <= |t[i..]| {
        PercentAlone(t[i..][|s|..]);
      }
    }
  }

  lemma LowerConcat(a: string, b: string)
    ensures Lower(a + b) == Lower(a) + Lower(b)
  {
  }

  /** Folding case commutes with escaping. */
  lemma {:induction false} LowerEscape(s: string)
    ensures Lower(EscapeLike(s)) == EscapeLike(Lower(s))
  {
    if s != [] {
      LowerEscape(s[1..]);
      var head := if Special(s[0]) then [ESCAPE, s[0]] else [s[0]];
      LowerConcat(head, EscapeLike(s[1..]));
      assert Lower(s)[0] == LowerChar(s[0]) && Lower(s)[1..] == Lower(s[1..]);
      assert Special(LowerChar(s[0])) <==> Special(s[0]);
      assert Lower(head) == if Special(s[0]) then [ESCAPE, LowerChar(s[0])] else [LowerChar(s[0])];
    }
  }

  /** The name filter `LOWER(name) LIKE LOWER(pattern)` is substring search up to ASCII case. */
  lemma NameFilter(query: string, name: string)
    ensures Matches(Lower(Contains(query)), Lower(name)) <==> Occurs(Lower(query), Lower(name))
  {
    LowerConcat("%", EscapeLike(query));
    LowerConcat("%" + EscapeLike(query), "%");
    LowerEscape(query);
    assert Lower("%") == "%";
    assert Lower(Contains(query)) == Contains(Lower(query));
    ContainsMeansOccurs(Lower(query), Lower(name));
  }

  /** Whether a pattern ends in an escape that has no character to escape. */
  predicate Dangling(p: string) {
    if p == [] then false
    else if p[0] == ESCAPE then |p| == 1 || Dangling(p[2..])
    else Dangling(p[1..])
  }

  lemma {:induction false} NeverDangling(s: string, p: string)
    requires !Dangling(p)
    ensures !Dangling(EscapeLike(s) + p)
  {
    if s == [] {
      assert EscapeLike(s) + p == p;
    } else {
      NeverDangling(s[1..], p);
      var rest := EscapeLike(s[1..]) + p;
      EscapedHead(s, p);
    }
  }

  /** So no pattern a query sends is refused for a dangling escape. */
  lemma ContainsNeverDangling(s: string)
    ensures !Dangling(Contains(s))
  {
    assert "%"[1..] == [];
    NeverDangling(s, "%");
    assert Contains(s) == "%" + (EscapeLike(s) + "%");
    assert Contains(s)[1..] == EscapeLike(s) + "%";
  }
}
