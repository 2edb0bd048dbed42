/** Splitting on a separator as std::getline and the find loops do it, and decimal numbers. */
module Splitting {
  import opened Types

  /** How far the first separator is; the length if there is none. */
  function Reach<T(==)>(s: seq<T>, sep: T): (n: nat)
    ensures n <= |s| && sep !in s[..n] && (n < |s| ==> s[n] == sep)
  {
    if s == [] || s[0] == sep then 0
    else
      var n := Reach(s[1..], sep);
      assert s[..n + 1] == [s[0]] + s[1..][..n];
      n + 1
  }

  /** The pieces between separators; nothing follows a separator at the end. */
  function Split<T(==)>(s: seq<T>, sep: T): seq<seq<T>>
    decreases |s|
  {
    if s == [] then []
    else
      var n := Reach(s, sep);
      if n == |s| then [s] else [s[..n]] + Split(s[n + 1..], sep)
  }

  function Join<T>(parts: seq<seq<T>>, sep: T): seq<T> {
    if parts == [] then [] else if |parts| == 1 then parts[0] else parts[0] + [sep] + Join(parts[1..], sep)
  }

  lemma {:induction false} ReachOf<T>(a: seq<T>, sep: T, rest: seq<T>)
    requires sep !in a
    ensures Reach(a + [sep] + rest, sep) == |a|
  {
    if a != [] {
      ReachOf(a[1..], sep, rest);
      assert (a + [sep] + rest)[1..] == a[1..] + [sep] + rest;
    }
  }

  lemma SplitHead<T>(a: seq<T>, sep: T, rest: seq<T>)
    requires sep !in a
    ensures Split(a + [sep] + rest, sep) == [a] + Split(rest, sep)
  {
    var s := a + [sep] + rest;
    ReachOf(a, sep, rest);
    assert s[..|a|] == a && s[|a| + 1..] == rest;
  }

  lemma SplitOne<T>(a: seq<T>, sep: T)
    requires sep !in a && a != []
    ensures Split(a, sep) == [a]
  {
  }

  /** Pieces without the separator, the last one non-empty, come back. */
  lemma {:induction false} SplitJoin<T>(parts: seq<seq<T>>, sep: T)
    requires forall i :: 0 <= i < |parts| ==> sep !in parts[i]
    requires parts != [] ==> parts[|parts| - 1] != []
    ensures Split(Join(parts, sep), sep) == parts
  {
    if |parts| == 1 {
      SplitOne(parts[0], sep);
    } else if parts != [] {
      SplitJoin(parts[1..], sep);
      SplitHead(parts[0], sep, Join(parts[1..], sep));
      assert parts == [parts[0]] + parts[1..];
    }
  }

  /** `s` is the parts with separators between them and perhaps one at the end; if none is there, the
      last part is not empty. */
  ghost predicate Joins<T>(s: seq<T>, sep: T, parts: seq<seq<T>>) {
    && (forall i :: 0 <= i < |parts| ==> sep !in parts[i])
    && if parts == [] then s == []
       else s == Join(parts, sep) + [sep] || (s == Join(parts, sep) && parts[|parts| - 1] != [])
  }

  lemma {:induction false} SplitTerminated<T>(parts: seq<seq<T>>, sep: T)
    requires parts != [] && forall i :: 0 <= i < |parts| ==> sep !in parts[i]
    ensures Split(Join(parts, sep) + [sep], sep) == parts
  {
    if |parts| == 1 {
      SplitHead(parts[0], sep, []);
      assert parts[0] + [sep] + [] == parts[0] + [sep] && parts == [parts[0]];
    } else {
      SplitTerminated(parts[1..], sep);
      SplitHead(parts[0], sep, Join(parts[1..], sep) + [sep]);
      Associative(parts[0] + [sep], Join(parts[1..], sep), [sep]);
      assert parts == [parts[0]] + parts[1..];
    }
  }

  lemma JoinCons<T>(a: seq<T>, parts: seq<seq<T>>, sep: T)
    requires parts != []
    ensures Join([a] + parts, sep) == a + [sep] + Join(parts, sep)
  {
    assert ([a] + parts)[1..] == parts;
  }

  lemma JoinsCons<T>(a: seq<T>, rest: seq<T>, sep: T, parts: seq<seq<T>>)
    requires sep !in a && Joins(rest, sep, parts)
    ensures Joins(a + [sep] + rest, sep, [a] + parts)
  {
    if parts == [] {
      assert a + [sep] + rest == Join([a], sep) + [sep];
    } else {
      JoinCons(a, parts, sep);
      var all := [a] + parts;
      assert all[|all| - 1] == parts[|parts| - 1];
      Associative(a + [sep], Join(parts, sep), [sep]);
    }
  }

  lemma {:induction false} SplitJoins<T>(s: seq<T>, sep: T)
    ensures Joins(s, sep, Split(s, sep))
    decreases |s|
  {
    if s != [] {
      var n := Reach(s, sep);
      if n < |s| {
        SplitJoins(s[n + 1..], sep);
        JoinsCons(s[..n], s[n + 1..], sep, Split(s[n + 1..], sep));
        assert s == s[..n] + [sep] + s[n + 1..];
      } else {
        assert s[..n] == s;
      }
    }
  }

  /** The pieces are the one way to write the text as separated parts. */
  lemma SplitExactly<T>(s: seq<T>, sep: T, parts: seq<seq<T>>)
    ensures Split(s, sep) == parts <==> Joins(s, sep, parts)
  {
    SplitJoins(s, sep);
    if Joins(s, sep, parts) && parts != [] {
      if s == Join(parts, sep) + [sep] {
        SplitTerminated(parts, sep);
      } else {
        SplitJoin(parts, sep);
      }
    }
  }

  lemma {:induction false} PiecesHaveNoSeparator<T>(s: seq<T>, sep: T)
    ensures forall i :: 0 <= i < |Split(s, sep)| ==> sep !in Split(s, sep)[i]
    decreases |s|
  {
    if s != [] {
      var n := Reach(s, sep);
      if n < |s| {
        PiecesHaveNoSeparator(s[n + 1..], sep);
      } else {
        assert s[..n] == s;
      }
    }
  }

  /** basic_string::find of one character from `start` on; the length stands for npos. */
  method FindFrom<T(==)>(s: seq<T>, sep: T, start: nat) returns (end: nat)
    requires start <= |s|
    ensures start <= end <= |s| && end == start + Reach(s[start..], sep)
  {
    end := start;
    while end < |s| && s[end] != sep
      invariant start <= end <= |s| && start + Reach(s[start..], sep) == end + Reach(s[end..], sep)
    {
      assert s[end..][1..] == s[end + 1..];
      end := end + 1;
    }
    assert s[|s|..] == [];
  }

  lemma SplitAt<T>(s: seq<T>, sep: T, start: nat, end: nat)
    requires start < |s| && end == start + Reach(s[start..], sep)
    ensures Split(s[start..], sep) == [s[start..end]] + if end == |s| then [] else Split(s[end + 1..], sep)
  {
    assert s[start..][..end - start] == s[start..end];
    if end < |s| {
      assert s[start..][end - start + 1..] == s[end + 1..];
    } else {
      assert s[start..end] == s[start..] && [s[start..]] + [] == [s[start..]];
    }
  }

  lemma Associative<T>(a: seq<T>, b: seq<T>, c: seq<T>)
    ensures a + (b + c) == a + b + c
  {
  }

  lemma Assoc<T>(a: seq<T>, x: T, b: seq<T>)
    ensures a + ([x] + b) == a + [x] + b
  {
  }

  /** The token loops: find the next separator, cut, go on behind it. */
  method Tokens<T(==)>(s: seq<T>, sep: T) returns (tokens: seq<seq<T>>)
    ensures tokens == Split(s, sep)
  {
    hide Reach;
    tokens := [];
    var start := 0;
    ghost var rest := Split(s, sep);
    assert s[0..] == s && tokens + rest == rest;
    while start < |s|
      invariant start <= |s| && rest == Split(s[start..], sep) && tokens + rest == Split(s, sep)
    {
      hide Split;
      var end := FindFrom(s, sep, start);
      SplitAt(s, sep, start, end);
      rest := if end == |s| then [] else Split(s[end + 1..], sep);
      Assoc(tokens, s[start..end], rest);
      tokens := tokens + [s[start..end]];
      if end == |s| {
        assert tokens + [] == tokens;
        return;
      }
      start := end + 1;
    }
    assert rest == [] && tokens + [] == tokens;
  }

  // ---- Decimal numbers -------------------------------------------------------------------------

  function Digit(d: nat): char
    requires d < 10
  {
    ('0' as int + d) as char
  }

  predicate IsDigit(c: char) {
    '0' <= c <= '9'
  }

  /** operator<< on an unsigned integer. */
  function Decimal(n: nat): (s: string)
    ensures s != []
  {
    if n < 10 then [Digit(n)] else Decimal(n / 10) + [Digit(n % 10)]
  }

  function DigitValue(c: char): nat {
    if IsDigit(c) then c as int - '0' as int else 0
  }

  function DecimalValue(s: string): nat {
    if s == [] then 0 else DecimalValue(s[..|s| - 1]) * 10 + DigitValue(s[|s| - 1])
  }

  /** std::from_chars into a 32-bit unsigned that must use the whole text. */
  function FromChars(s: string): Option<nat> {
    if s == [] || exists i :: 0 <= i < |s| && !IsDigit(s[i]) then None
    else if DecimalValue(s) >= 0x1_0000_0000 then None else Some(DecimalValue(s))
  }

  lemma {:induction false} DecimalReads(n: nat)
    ensures forall i :: 0 <= i < |Decimal(n)| ==> IsDigit(Decimal(n)[i])
    ensures DecimalValue(Decimal(n)) == n
  {
    if n >= 10 {
      DecimalReads(n / 10);
      assert Decimal(n)[..|Decimal(n)| - 1] == Decimal(n / 10);
    } else {
      assert Decimal(n)[..0] == [];
    }
  }

  lemma FromCharsDecimal(n: nat)
    requires n < 0x1_0000_0000
    ensures FromChars(Decimal(n)) == Some(n)
  {
    DecimalReads(n);
  }

  lemma DecimalInjective(m: nat, n: nat)
    requires Decimal(m) == Decimal(n)
    ensures m == n
  {
    DecimalReads(m);
    DecimalReads(n);
  }
}
