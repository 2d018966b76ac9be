/** The textual safety filter that `call_tool` applies to the trimmed SQL
    text before anything is executed: Rule 1 (the upper-cased text must start
    with `SELECT`), then Rule 2 (no forbidden keyword may occur anywhere in it). */
module QueryFilter {
  import opened PyText

  datatype Verdict = Accept | Reject(reason: string)

  const NotSelectMessage := "Only SELECT queries are allowed"
  const ForbiddenMessage := "Query contains forbidden operations"
  const SelectKeyword := "SELECT"
  const ForbiddenKeywords: seq<string> :=
    ["INSERT", "UPDATE", "DELETE", "DROP", "CREATE", "ALTER", "TRUNCATE"]

  /** `u.startswith(p)`. */
  predicate StartsWith(u: string, p: string): (r: bool)
    ensures r <==> |p| <= |u| && forall i :: 0 <= i < |p| ==> u[i] == p[i]
  {
    p <= u
  }

  /** Some forbidden keyword occurs somewhere in `u`, at any position,
      inside identifiers and string literals included. */
  ghost predicate MentionsForbidden(u: string) {
    exists k, i :: k in ForbiddenKeywords && OccursAt(u, k, i)
  }

  /** Whether any keyword of the list occurs in `u`, tried in list order. */
  function AnyContained(u: string, keywords: seq<string>): (r: bool)
    ensures r <==> exists j, i :: 0 <= j < |keywords| && OccursAt(u, keywords[j], i)
  {
    if keywords == [] then false
    else
      var r := Contains(u, keywords[0]) || AnyContained(u, keywords[1..]);
      assert forall j, i :: 1 <= j < |keywords| && OccursAt(u, keywords[j], i) ==>
        OccursAt(u, keywords[1..][j - 1], i);
      r
  }

  /** The verdict on the already trimmed text `sql`: Rule 1 is decided
      first, Rule 2 only for text that passed it. */
  function Validate(sql: string): (v: Verdict)
    ensures v == Reject(NotSelectMessage) <==> !StartsWith(Upper(sql), SelectKeyword)
    ensures v == Reject(ForbiddenMessage) <==>
      StartsWith(Upper(sql), SelectKeyword) && MentionsForbidden(Upper(sql))
    ensures v == Accept <==>
      StartsWith(Upper(sql), SelectKeyword) && !MentionsForbidden(Upper(sql))
  {
    var u := Upper(sql);
    if !StartsWith(u, SelectKeyword) then Reject(NotSelectMessage)
    else if AnyContained(u, ForbiddenKeywords) then
      Reject(ForbiddenMessage)
    else Accept
  }

  /** A forbidden keyword anywhere after a leading `SELECT` rejects the
      query with the forbidden-operations message. */
  lemma ForbiddenAnywhere(sql: string, before: string, k: string, after: string)
    requires k in ForbiddenKeywords
    requires StartsWith(Upper(sql), SelectKeyword)
    requires Upper(sql) == before + k + after
    ensures Validate(sql) == Reject(ForbiddenMessage)
  {
    assert OccursAt(Upper(sql), k, |before|);
  }

  /** Every forbidden keyword starts and ends with a capital letter, and
      none starts with `S`. */
  lemma KeywordLetters(kw: string)
    requires kw in ForbiddenKeywords
    ensures kw != [] && 'A' <= kw[0] <= 'Z' && kw[0] != 'S' && 'A' <= kw[|kw| - 1] <= 'Z'
  {
    if kw == "INSERT" {
    } else if kw == "UPDATE" {
    } else if kw == "DELETE" {
    } else if kw == "DROP" {
    } else if kw == "CREATE" {
    } else if kw == "ALTER" {
    } else {
      assert kw == "TRUNCATE";
    }
  }

  /** A keyword in any case starts and ends with a letter, which `strip()`
      keeps, and its upper case does not start with `S`. */
  lemma KeywordEnds(k: string)
    requires Upper(k) in ForbiddenKeywords
    ensures k != [] && !IsSpace(k[0]) && !IsSpace(k[|k| - 1]) && Upper(k)[0] != 'S'
  {
    KeywordLetters(Upper(k));
    var n := |k| - 1;
    assert UpperChar(k[0]) == Upper(k)[0];
    assert UpperChar(k[n]) == Upper(k)[n];
    SpaceIgnoresCase(k[0], Upper(k)[0]);
    SpaceIgnoresCase(k[n], Upper(k)[n]);
  }

  /** The same, for the trimmed text assembled from a leading `select` in
      any case, arbitrary text, a keyword in any case, and arbitrary text
      after it (`select 1 drop` included). */
  lemma KeywordAfterSelect(select: string, gap: string, k: string, rest: string)
    requires Upper(select) == SelectKeyword
    requires Upper(k) in ForbiddenKeywords
    ensures Validate(Strip(select + gap + k + rest)) == Reject(ForbiddenMessage)
  {
    var head := select + gap + k;
    assert UpperChar(select[0]) == Upper(select)[0] == 'S';
    KeywordEnds(k);
    assert head[0] == select[0] && head[|head| - 1] == k[|k| - 1];
    StripKeepsHead(head, rest);
    var tail := rest[..|Strip(head + rest)| - |head|];
    UpperConcat(select, gap);
    UpperConcat(select + gap, k);
    UpperConcat(head, tail);
    ForbiddenAnywhere(head + tail, SelectKeyword + Upper(gap), Upper(k), Upper(tail));
  }

  /** Rule 1 is decided first: text that starts with a forbidden keyword
      mentions it, yet is rejected with the SELECT message. */
  lemma KeywordFirstIsNotSelect(k: string, rest: string)
    requires Upper(k) in ForbiddenKeywords
    ensures MentionsForbidden(Upper(Strip(k + rest)))
    ensures Validate(Strip(k + rest)) == Reject(NotSelectMessage)
  {
    KeywordEnds(k);
    StripKeepsHead(k, rest);
    var sql := Strip(k + rest);
    var tail := rest[..|sql| - |k|];
    UpperConcat(k, tail);
    var u := Upper(sql);
    assert u == Upper(k) + Upper(tail);
    assert u[..|k|] == Upper(k);
    assert OccursAt(u, Upper(k), 0);
    assert u[0] == Upper(k)[0];
  }

  /** Text that is empty or only whitespace is trimmed to the empty string
      and rejected by Rule 1. */
  lemma BlankRejected(raw: string)
    requires AllSpace(raw)
    ensures Validate(Strip(raw)) == Reject(NotSelectMessage)
  {
    StripSpec(raw);
  }

  /** The verdict depends only on the upper-cased text: two inputs that
      differ only in the case of ASCII letters get the same verdict. */
  lemma VerdictIgnoresCase(raw1: string, raw2: string)
    requires Upper(raw1) == Upper(raw2)
    ensures Validate(Strip(raw1)) == Validate(Strip(raw2))
  {
    StripIgnoresCase(raw1, raw2);
  }

  /** Each of the seven keywords contains a `D` or an `R`, so upper-cased
      text with neither letter passes Rule 2. */
  lemma NoForbiddenWithoutDOrR(u: string)
    requires forall i :: 0 <= i < |u| ==> u[i] != 'D' && u[i] != 'R'
    ensures !MentionsForbidden(u)
  {
    forall k, i | k in ForbiddenKeywords
      ensures !OccursAt(u, k, i)
    {
      var p := if k == "INSERT" || k == "ALTER" then 4
        else if k == "UPDATE" then 2
        else if k == "CREATE" || k == "TRUNCATE" then 1
        else 0;
      assert k[p] == 'D' || k[p] == 'R';
      if 0 <= i <= |u| - |k| {
        assert u[i..i + |k|][p] == u[i + p];
      }
    }
  }

  /** `DROP TABLE employee` mentions `DROP` but gets the SELECT message. */
  lemma DropTableIsNotSelect()
    ensures MentionsForbidden(Upper(Strip("DROP" + " TABLE employee")))
    ensures Validate(Strip("DROP" + " TABLE employee")) == Reject(NotSelectMessage)
  {
    CapitalsKeepCase("DROP");
    KeywordFirstIsNotSelect("DROP", " TABLE employee");
  }

  /** A second, stacked statement passes Rule 1 and is caught by Rule 2. */
  lemma StackedDropRejected()
    ensures Validate(Strip("SELECT" + " * FROM employee; " + "DROP" + " TABLE employee;"))
      == Reject(ForbiddenMessage)
  {
    CapitalsKeepCase("SELECT");
    CapitalsKeepCase("DROP");
    KeywordAfterSelect("SELECT", " * FROM employee; ", "DROP", " TABLE employee;");
  }

  /** Known false positive: a keyword inside a string literal rejects a
      harmless read, even in lower case, since the text is upper-cased first. */
  lemma QuotedKeywordRejected()
    ensures Validate(Strip("SELECT" + " '" + "drop" + "' AS x")) == Reject(ForbiddenMessage)
  {
    CapitalsKeepCase("SELECT");
    assert Upper("drop") == "DROP" by {
      assert forall i :: 0 <= i < 4 ==> Upper("drop")[i] == "DROP"[i];
    }
    KeywordAfterSelect("SELECT", " '", "drop", "' AS x");
  }

  /** Known false positive: a column name that contains a keyword
      (`updated_at` contains `update`) rejects a harmless read, whatever
      the case it is written in. */
  lemma ColumnNameRejected()
    ensures Validate(Strip("select" + " " + "update" + "d_at from public.employee"))
      == Reject(ForbiddenMessage)
  {
    assert Upper("select") == SelectKeyword by {
      assert forall i :: 0 <= i < 6 ==> Upper("select")[i] == SelectKeyword[i];
    }
    assert Upper("update") == "UPDATE" by {
      assert forall i :: 0 <= i < 6 ==> Upper("update")[i] == "UPDATE"[i];
    }
    KeywordAfterSelect("select", " ", "update", "d_at from public.employee");
  }

  lemma CountVerdict(sql: string)
    requires sql == "select count(*)"
    ensures Validate(sql) == Accept
  {
    var u := Upper(sql);
    assert forall i :: 0 <= i < |u| ==> u[i] == "SELECT COUNT(*)"[i];
    assert u[..6] == SelectKeyword;
    NoForbiddenWithoutDOrR(u);
  }

  /** A lower-case `select` passes Rule 1, and text free of the seven
      keywords passes Rule 2. */
  lemma CountAccepted()
    ensures Validate(Strip("select count(*)")) == Accept
  {
    var sql := "select count(*)";
    assert sql[0] == 's' && sql[|sql| - 1] == ')';
    StripUnpadded(sql);
    CountVerdict(sql);
  }

  /** One adjacent letter pair of each forbidden keyword, in list order:
      `NS`, `UP`, `ET`, `DR`, `CR`, `AL`, `TR`. */
  predicate TellTalePair(a: char, b: char) {
    || (a == 'N' && b == 'S') || (a == 'U' && b == 'P') || (a == 'E' && b == 'T')
    || (a == 'D' && b == 'R') || (a == 'C' && b == 'R') || (a == 'A' && b == 'L')
    || (a == 'T' && b == 'R')
  }

  /** A tell-tale pair starts at index `i` of `u`. */
  predicate PairAt(u: string, i: int) {
    0 <= i < |u| - 1 && TellTalePair(u[i], u[i + 1])
  }

  /** No two adjacent characters of `u` form a tell-tale pair. */
  predicate FreeOfPairs(u: string) {
    forall i :: 0 <= i < |u| - 1 ==> !PairAt(u, i)
  }

  /** Text free of the seven pairs mentions no forbidden keyword: each
      keyword contains its pair. */
  lemma NoForbiddenWithoutPairs(u: string)
    requires FreeOfPairs(u)
    ensures !MentionsForbidden(u)
  {
    forall k, i | k in ForbiddenKeywords
      ensures !OccursAt(u, k, i)
    {
      var p := if k == "INSERT" then 1 else if k == "DELETE" then 3 else 0;
      assert TellTalePair(k[p], k[p + 1]);
      if 0 <= i <= |u| - |k| {
        assert u[i..i + |k|][p] == u[i + p];
        assert u[i..i + |k|][p + 1] == u[i + p + 1];
        assert !PairAt(u, i + p);
      }
    }
  }

  /** The pair check as a left-to-right scan from index `i`. */
  predicate PairFreeFrom(u: string, i: nat)
    decreases |u| - i
  {
    i + 1 >= |u| || (!TellTalePair(u[i], u[i + 1]) && PairFreeFrom(u, i + 1))
  }

  /** The scan from `i` succeeds exactly when no pair starts at or after `i`. */
  lemma {:induction false} PairFreeFromSound(u: string, i: nat)
    ensures PairFreeFrom(u, i) <==> forall j :: i <= j < |u| - 1 ==> !PairAt(u, j)
    decreases |u| - i
  {
    if i + 1 < |u| {
      assert PairAt(u, i) <==> TellTalePair(u[i], u[i + 1]);
      PairFreeFromSound(u, i + 1);
    }
  }

  /** Pair-free texts joined where no pair straddles the seam stay pair-free. */
  lemma FreeOfPairsConcat(x: string, y: string)
    requires FreeOfPairs(x) && FreeOfPairs(y)
    requires x == [] || y == [] || !TellTalePair(x[|x| - 1], y[0])
    ensures FreeOfPairs(x + y)
  {
    forall i | 0 <= i < |x + y| - 1
      ensures !PairAt(x + y, i)
    {
      if i >= |x| {
        assert (x + y)[i] == y[i - |x|] && (x + y)[i + 1] == y[i - |x| + 1];
        assert !PairAt(y, i - |x|);
      } else if i < |x| - 1 {
        assert !PairAt(x, i);
      }
    }
  }

  /** The first pieces of the upper-cased example query below hold none of the pairs. */
  lemma ExampleHeadFreeOfPairs()
    ensures FreeOfPairs("SELECT * FROM ") && FreeOfPairs("PUBLIC.EMPLOYEE")
  {
    assert PairFreeFrom("SELECT * FROM ", 0);
    PairFreeFromSound("SELECT * FROM ", 0);
    assert PairFreeFrom("PUBLIC.EMPLOYEE", 0);
    PairFreeFromSound("PUBLIC.EMPLOYEE", 0);
  }

  /** The middle pieces of the upper-cased example query below hold none of the pairs. */
  lemma ExampleMiddleFreeOfPairs()
    ensures FreeOfPairs(" WHERE ") && FreeOfPairs("DEPARTMENT") && FreeOfPairs(" = '")
  {
    assert PairFreeFrom(" WHERE ", 0);
    PairFreeFromSound(" WHERE ", 0);
    assert PairFreeFrom("DEPARTMENT", 0);
    PairFreeFromSound("DEPARTMENT", 0);
    assert PairFreeFrom(" = '", 0);
    PairFreeFromSound(" = '", 0);
  }

  /** The last pieces of the upper-cased example query below hold none of the pairs. */
  lemma ExampleTailFreeOfPairs()
    ensures FreeOfPairs("ENGINEERING") && FreeOfPairs("' LIMIT 100")
  {
    assert PairFreeFrom("ENGINEERING", 0);
    PairFreeFromSound("ENGINEERING", 0);
    assert PairFreeFrom("' LIMIT 100", 0);
    PairFreeFromSound("' LIMIT 100", 0);
  }

  /** Each piece of the example query below, upper-cased. */
  lemma ExampleWordsUpper()
    ensures Upper("SELECT * FROM ") == "SELECT * FROM "
    ensures Upper("public.employee") == "PUBLIC.EMPLOYEE"
    ensures Upper(" WHERE ") == " WHERE "
    ensures Upper("department") == "DEPARTMENT"
    ensures Upper(" = '") == " = '"
    ensures Upper("Engineering") == "ENGINEERING"
    ensures Upper("' LIMIT 100") == "' LIMIT 100"
  {
    var c2, c4, c6 := "public.employee", "department", "Engineering";
    assert forall i :: 0 <= i < |c2| ==> Upper(c2)[i] == "PUBLIC.EMPLOYEE"[i];
    assert forall i :: 0 <= i < |c4| ==> Upper(c4)[i] == "DEPARTMENT"[i];
    assert forall i :: 0 <= i < |c6| ==> Upper(c6)[i] == "ENGINEERING"[i];
  }

  /** The example query upper-cased, piece by piece. */
  lemma ExampleUpper()
    ensures Upper("SELECT * FROM " + "public.employee" + " WHERE " + "department"
      + " = '" + "Engineering" + "' LIMIT 100")
      == "SELECT * FROM " + "PUBLIC.EMPLOYEE" + " WHERE " + "DEPARTMENT"
      + " = '" + "ENGINEERING" + "' LIMIT 100"
  {
    var c1, c2, c3, c4 := "SELECT * FROM ", "public.employee", " WHERE ", "department";
    var c5, c6, c7 := " = '", "Engineering", "' LIMIT 100";
    ExampleWordsUpper();
    UpperConcat(c1, c2);
    UpperConcat(c1 + c2, c3);
    UpperConcat(c1 + c2 + c3, c4);
    UpperConcat(c1 + c2 + c3 + c4, c5);
    UpperConcat(c1 + c2 + c3 + c4 + c5, c6);
    UpperConcat(c1 + c2 + c3 + c4 + c5 + c6, c7);
  }

  /** The upper-cased example query holds none of the seven pairs. */
  lemma ExampleFreeOfPairs()
    ensures FreeOfPairs("SELECT * FROM " + "PUBLIC.EMPLOYEE" + " WHERE " + "DEPARTMENT"
      + " = '" + "ENGINEERING" + "' LIMIT 100")
  {
    var u1, u2, u3, u4 := "SELECT * FROM ", "PUBLIC.EMPLOYEE", " WHERE ", "DEPARTMENT";
    var u5, u6, u7 := " = '", "ENGINEERING", "' LIMIT 100";
    ExampleHeadFreeOfPairs();
    ExampleMiddleFreeOfPairs();
    ExampleTailFreeOfPairs();
    FreeOfPairsConcat(u1, u2);
    FreeOfPairsConcat(u1 + u2, u3);
    FreeOfPairsConcat(u1 + u2 + u3, u4);
    FreeOfPairsConcat(u1 + u2 + u3 + u4, u5);
    FreeOfPairsConcat(u1 + u2 + u3 + u4 + u5, u6);
    FreeOfPairsConcat(u1 + u2 + u3 + u4 + u5 + u6, u7);
  }

  /** The example query of the tool's description, with D and R in it, is
      accepted: it starts with `SELECT` and holds none of the seven pairs. */
  lemma EngineersAccepted()
    ensures Validate(Strip("SELECT * FROM " + "public.employee" + " WHERE "
      + "department" + " = '" + "Engineering" + "' LIMIT 100")) == Accept
  {
    var sql := "SELECT * FROM " + "public.employee" + " WHERE "
      + "department" + " = '" + "Engineering" + "' LIMIT 100";
    var u := "SELECT * FROM " + "PUBLIC.EMPLOYEE" + " WHERE " + "DEPARTMENT"
      + " = '" + "ENGINEERING" + "' LIMIT 100";
    ExampleUpper();
    ExampleFreeOfPairs();
    NoForbiddenWithoutPairs(u);
    assert u[..6] == SelectKeyword;
    assert sql[0] == 'S' && sql[|sql| - 1] == '0';
    StripUnpadded(sql);
  }
}
