/**
 * The predicates the compiler asks the JPA CriteriaBuilder and Spring's
 * Specification combinators to build, as an abstract datatype, together with a
 * reference reading of the LIKE patterns that STARTS, ENDS and CONTAINS produce.
 */
module Criteria {
  import opened Ast

  /**
   * One constructor per builder call the visitor makes. `path` is the attribute
   * name handed to `root.get`; `NoPredicate` is the null the visitor returns
   * where it builds nothing.
   */
  datatype Pred =
    | NoPredicate
    | Like(path: string, pattern: string)
    | Equal(path: string, operand: Value)
    | IsNull(path: string)
    | LessThan(path: string, operand: Value)
    | LessThanOrEqualTo(path: string, operand: Value)
    | GreaterThan(path: string, operand: Value)
    | GreaterThanOrEqualTo(path: string, operand: Value)
    | In(path: string, values: seq<Value>)
    | InNull(path: string)
    | Between(path: string, low: Value, high: Value)
    | And(left: Pred, right: Pred)
    | Or(left: Pred, right: Pred)
    | Not(negated: Pred)

  /**
   * The characters a LIKE pattern may treat specially: its two wildcards, and
   * the backslash that several databases take as the default escape character.
   */
  predicate IsSpecial(c: char) { c == '%' || c == '_' || c == '\\' }

  /** A string with none of those characters, which every such backend reads literally. */
  predicate IsLiteral(t: string) { forall i :: 0 <= i < |t| ==> !IsSpecial(t[i]) }

  /**
   * SQL LIKE with case-sensitive character comparison and no escape character:
   * `%` any run, `_` any one character. On literal operands it agrees with a
   * backend whose default escape is the backslash.
   */
  function LikeMatches(pattern: string, s: string): bool
    decreases |pattern| + |s|
  {
    if pattern == [] then s == []
    else if pattern[0] == '%' then
      LikeMatches(pattern[1..], s) || (s != [] && LikeMatches(pattern, s[1..]))
    else
      s != [] && (pattern[0] == '_' || pattern[0] == s[0]) && LikeMatches(pattern[1..], s[1..])
  }

  predicate IsSuffixOf(t: string, s: string) { |t| <= |s| && s[|s| - |t|..] == t }

  predicate IsInfixOf(t: string, s: string) { exists i :: 0 <= i <= |s| && t <= s[i..] }

  lemma LiteralTail(t: string)
    requires IsLiteral(t) && t != []
    ensures IsLiteral(t[1..]) && !IsSpecial(t[0])
  {
  }

  /** A lone `%` matches every string. */
  lemma {:induction false} PercentMatchesAll(s: string)
    ensures LikeMatches("%", s)
  {
    if s != [] {
      PercentMatchesAll(s[1..]);
    }
  }

  /** A pattern without special characters matches exactly itself. */
  lemma {:induction false} LiteralMatchesItself(t: string, s: string)
    requires IsLiteral(t)
    ensures LikeMatches(t, s) <==> s == t
  {
    if t != [] && s != [] {
      LiteralTail(t);
      LiteralMatchesItself(t[1..], s[1..]);
      if s[0] == t[0] && s[1..] == t[1..] {
        assert s == [s[0]] + s[1..] && t == [t[0]] + t[1..];
      }
    }
  }

  /** `t + "%"`, for a literal `t`, matches exactly the strings that start with `t`. */
  lemma {:induction false} StartsPatternMatchesPrefixes(t: string, s: string)
    requires IsLiteral(t)
    ensures LikeMatches(t + "%", s) <==> t <= s
  {
    if t == [] {
      assert t + "%" == "%";
      PercentMatchesAll(s);
    } else {
      LiteralTail(t);
      assert (t + "%")[0] == t[0];
      assert (t + "%")[1..] == t[1..] + "%";
      if s != [] {
        StartsPatternMatchesPrefixes(t[1..], s[1..]);
        if t[0] == s[0] && t[1..] <= s[1..] {
          assert s[..|t|] == [s[0]] + s[1..][..|t| - 1];
          assert t == [t[0]] + t[1..];
        }
      }
    }
  }

  /** `"%" + t`, for a literal `t`, matches exactly the strings that end with `t`. */
  lemma {:induction false} EndsPatternMatchesSuffixes(t: string, s: string)
    requires IsLiteral(t)
    ensures LikeMatches("%" + t, s) <==> IsSuffixOf(t, s)
  {
    assert ("%" + t)[0] == '%' && ("%" + t)[1..] == t;
    LiteralMatchesItself(t, s);
    if s != [] {
      EndsPatternMatchesSuffixes(t, s[1..]);
      if |t| < |s| {
        assert s[1..][|s[1..]| - |t|..] == s[|s| - |t|..];
      }
    }
  }

  /** `"%" + t + "%"`, for a literal `t`, matches exactly the strings that contain `t`. */
  lemma {:induction false} ContainsPatternMatchesInfixes(t: string, s: string)
    requires IsLiteral(t)
    ensures LikeMatches("%" + t + "%", s) <==> IsInfixOf(t, s)
  {
    var p := "%" + t + "%";
    assert p[0] == '%' && p[1..] == t + "%";
    StartsPatternMatchesPrefixes(t, s);
    assert s[0..] == s;
    if s != [] {
      ContainsPatternMatchesInfixes(t, s[1..]);
      if IsInfixOf(t, s[1..]) {
        var i :| 0 <= i <= |s[1..]| && t <= s[1..][i..];
        assert s[1..][i..] == s[i + 1..];
      }
      if IsInfixOf(t, s) && !(t <= s) {
        var i :| 0 <= i <= |s| && t <= s[i..];
        assert i != 0;
        assert s[i..] == s[1..][i - 1..];
      }
    }
  }

  /**
   * The pattern is not escaped: a `_` inside a STARTS operand is a wildcard, so
   * "a_" + "%" matches "abc" although "abc" does not start with "a_".
   */
  lemma UnescapedWildcardOvermatches()
    ensures LikeMatches("a_" + "%", "abc") && !("a_" <= "abc")
  {
    var p := "a_" + "%";
    assert p == "a_%";
    assert p[1..] == "_%" && p[2..] == "%";
    PercentMatchesAll("c");
    assert "abc"[1..] == "bc" && "bc"[1..] == "c";
    assert "abc"[..2][1] == 'b' != '_' == "a_"[1];
  }
}
