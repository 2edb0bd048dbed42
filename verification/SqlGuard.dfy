/** The append-only SQL guard (src/audit/repository/append_only_sql_guard.cpp). */
module SqlGuard {
  import opened Ascii
  import opened Substrings

  const KEYWORDS: seq<string> :=
    ["INSERT", "UPDATE", "DELETE", "ALTER", "TRUNCATE", "DROP", "CREATE", "RENAME", "OPTIMIZE", "GRANT",
     "REVOKE", "ATTACH", "DETACH"]

  /** Not a word boundary: a letter, a digit or an underscore. */
  predicate WordChar(c: char) {
    Alnum(c) || c == '_'
  }

  function Upper(s: string): (r: string)
    ensures |r| == |s|
  {
    seq(|s|, i requires 0 <= i < |s| => UpperChar(s[i]))
  }

  predicate AllWord(s: string) {
    forall i :: 0 <= i < |s| ==> WordChar(s[i])
  }

  ghost predicate WholeWord(s: string, kw: string, i: nat) {
    && At(s, kw, i) && (i == 0 || !WordChar(s[i - 1]))
    && (i + |kw| == |s| || !WordChar(s[i + |kw|]))
  }

  /** An occurrence that starts inside another one has a letter before it. */
  lemma InsideIsNoWord(s: string, kw: string, i: nat, j: nat)
    requires AllWord(kw) && At(s, kw, i) && i < j < i + |kw|
    ensures !WholeWord(s, kw, j)
  {
    AtChar(s, kw, i, j - 1 - i);
  }

  /** One keyword: the scan skips the length of the keyword after a hit that is no word, and misses
      nothing by it. */
  method HasKeyword(upper: string, kw: string) returns (found: bool)
    requires kw != [] && AllWord(kw)
    ensures found <==> exists i: nat :: WholeWord(upper, kw, i)
  {
    var pos: nat := 0;
    while true
      invariant forall i: nat :: WholeWord(upper, kw, i) ==> i >= pos
      decreases |upper| - pos
    {
      var i := Find(upper, kw, pos);
      if i == -1 {
        return false;
      }
      var left := i == 0 || !WordChar(upper[i - 1]);
      var right := i + |kw| == |upper| || !WordChar(upper[i + |kw|]);
      if left && right {
        assert WholeWord(upper, kw, i);
        return true;
      }
      forall j: nat | WholeWord(upper, kw, j) ensures j >= i + |kw| {
        if i < j < i + |kw| {
          InsideIsNoWord(upper, kw, i, j);
        }
      }
      pos := i + |kw|;
    }
  }

  lemma KeywordsAreWords(k: nat)
    requires k < |KEYWORDS|
    ensures KEYWORDS[k] != [] && AllWord(KEYWORDS[k])
  {
  }

  /** Some forbidden keyword is a word of the statement, in any case. */
  ghost predicate NamesKeyword(sql: string, kw: string) {
    exists i: nat :: WholeWord(Upper(sql), kw, i)
  }

  method CheckForbiddenKeywords(sql: string, allowInsert: bool) returns (ok: bool)
    ensures ok <==>
            forall k :: 0 <= k < |KEYWORDS| && !(allowInsert && KEYWORDS[k] == "INSERT") ==>
              !NamesKeyword(sql, KEYWORDS[k])
  {
    hide Upper;
    var upper := Upper(sql);
    for k := 0 to |KEYWORDS|
      invariant forall j :: 0 <= j < k && !(allowInsert && KEYWORDS[j] == "INSERT") ==> !NamesKeyword(sql, KEYWORDS[j])
    {
      KeywordsAreWords(k);
      if allowInsert && KEYWORDS[k] == "INSERT" {
        continue;
      }
      var found := HasKeyword(upper, KEYWORDS[k]);
      if found {
        assert NamesKeyword(sql, KEYWORDS[k]);
        return false;
      }
    }
    return true;
  }

  /** A semicolon may only stand at the very end. */
  ghost predicate OneStatement(sql: string) {
    forall i, j :: 0 <= i < j < |sql| && sql[i] == ';' ==> Space(sql[j])
  }

  method TrimRight(s: string) returns (n: nat)
    ensures n <= |s| && (forall j :: n <= j < |s| ==> Space(s[j])) && (n > 0 ==> !Space(s[n - 1]))
  {
    n := |s|;
    while n > 0 && Space(s[n - 1])
      invariant n <= |s| && forall j :: n <= j < |s| ==> Space(s[j])
    {
      n := n - 1;
    }
  }

  method CheckNoChaining(sql: string) returns (ok: bool)
    ensures ok <==> OneStatement(sql)
  {
    var n := TrimRight(sql);
    var m := n;
    if n > 0 && sql[n - 1] == ';' {
      m := n - 1;
    }
    var k := TrimRight(sql[..m]);
    if ';' in sql[..k] {
      var i :| 0 <= i < k && sql[i] == ';';
      assert !Space(sql[..m][k - 1]);
      assert i < n - 1 ==> !Space(sql[n - 1]);
      return false;
    }
    assert forall i :: 0 <= i < k ==> sql[i] == sql[..k][i];
    assert forall i :: k <= i < m ==> Space(sql[i]) by {
      assert forall i :: k <= i < m ==> sql[i] == sql[..m][i];
    }
    return true;
  }

  function TrimLeft(s: string): string {
    if s != [] && Space(s[0]) then TrimLeft(s[1..]) else s
  }

  /** The statement starts with the word SELECT, in any case. */
  predicate BeginsWithSelect(sql: string) {
    var t := TrimLeft(sql);
    |t| >= 6 && Upper(t[..6]) == "SELECT" && (|t| > 6 ==> !WordChar(t[6]))
  }

  /** What the guard lets pass. */
  ghost predicate ReadOnly(sql: string) {
    BeginsWithSelect(sql) && OneStatement(sql) && forall k :: 0 <= k < |KEYWORDS| ==> !NamesKeyword(sql, KEYWORDS[k])
  }

  method ValidateQuerySql(sql: string) returns (ok: bool)
    ensures ok <==> ReadOnly(sql)
  {
    var start := 0;
    assert sql[0..] == sql;
    while start < |sql| && Space(sql[start])
      invariant start <= |sql| && TrimLeft(sql[start..]) == TrimLeft(sql)
    {
      assert sql[start..][1..] == sql[start + 1..];
      start := start + 1;
    }
    var trimmed := sql[start..];
    assert trimmed == TrimLeft(sql);
    if trimmed == [] || |trimmed| < 6 || Upper(trimmed[..6]) != "SELECT" || (|trimmed| > 6 && WordChar(trimmed[6])) {
      return false;
    }
    var single := CheckNoChaining(sql);
    if !single {
      return false;
    }
    ok := CheckForbiddenKeywords(sql, false);
  }
}
