/** The tables of the codecs, letter by letter: RFC 4648 sections 4, 5 and 6, hexadecimal digits, the
    escapes of TabSeparated text, the character classes, big-endian bytes and truncation to milliseconds. */
module CodecTables {
  import opened Types
  import opened Wire
  import opened Ascii
  import opened AuditEvents
  import Bits
  import B64 = Base64
  import B32 = Base32
  import Tsv = TabSeparated
  import Redaction
  import SqlGuard

  const LETTERS := "ABCDEFGHIJKLMNOPQRSTUVWXYZ"
  const SMALL := "abcdefghijklmnopqrstuvwxyz"
  const DIGITS := "0123456789"

  lemma LetterAt(d: nat)
    requires d < 26
    ensures LETTERS[d] == ('A' as int + d) as char && SMALL[d] == ('a' as int + d) as char
  {
  }

  lemma DigitAt(d: nat)
    requires d < 10
    ensures DIGITS[d] == ('0' as int + d) as char
  {
  }

  /** Table 2 of RFC 4648 for base64url, table 1 for base64. */
  lemma Base64Alphabet(a: B64.Alphabet, d: B64.sextet)
    ensures B64.Char(a, d) == (LETTERS + SMALL + DIGITS + (if a.Url? then "-_" else "+/"))[d]
  {
    hide LETTERS, SMALL, DIGITS;
    TableSizes();
    if d < 52 {
      LetterAt(d % 26);
    } else if d < 62 {
      DigitAt(d - 52);
    }
  }

  lemma TableSizes()
    ensures |LETTERS| == |SMALL| == 26 && |DIGITS| == 10
  {
  }

  /** Table 3 of RFC 4648. */
  lemma Base32Alphabet(d: B32.quintet)
    ensures B32.Symbol(d) == (LETTERS + "234567")[d]
  {
    hide LETTERS;
    TableSizes();
    if d < 26 {
      LetterAt(d);
    }
  }

  /** Identifiers are written in lower-case hexadecimal. */
  lemma HexTable(n: nat)
    requires n < 16
    ensures Tsv.HexDigit(n) == (if n < 10 then DIGITS[n] else SMALL[n - 10]) as nat
  {
    hide LETTERS, SMALL, DIGITS;
    TableSizes();
    if n < 10 {
      DigitAt(n);
    } else {
      LetterAt(n - 10);
    }
  }

  /** Tab, newline, backslash and zero are written as \t, \n, \\ and \0, every other byte as itself. */
  lemma EscapeTable(b: byte)
    ensures Tsv.EscapeByte(9) == [92, 116] && Tsv.EscapeByte(10) == [92, 110]
    ensures Tsv.EscapeByte(92) == [92, 92] && Tsv.EscapeByte(0) == [92, 48]
    ensures b !in [0, 9, 10, 92] ==> Tsv.EscapeByte(b) == [b]
  {
  }

  /** Upper and lower case exchange the letters at one place and leave every other character alone. */
  lemma CaseTable(d: nat, c: char)
    requires d < 26
    ensures UpperChar(SMALL[d]) == LETTERS[d] && LowerChar(LETTERS[d]) == SMALL[d]
    ensures !('a' <= c <= 'z') ==> UpperChar(c) == c
    ensures !('A' <= c <= 'Z') ==> LowerChar(c) == c
  {
    hide LETTERS, SMALL;
    TableSizes();
    LetterAt(d);
  }

  /** White space is the blank, tab, line feed, vertical tab, form feed and carriage return. */
  lemma SpaceTable(c: char)
    ensures Space(c) <==> c as int in [32, 9, 10, 11, 12, 13]
  {
  }

  /** Alphanumeric are the letters of either case and the digits. */
  lemma AlnumTable(c: char)
    ensures Alnum(c) <==> c in LETTERS || c in SMALL || c in DIGITS
  {
    hide LETTERS, SMALL, DIGITS;
    TableSizes();
    forall d: nat | d < 26 ensures Alnum(LETTERS[d]) && Alnum(SMALL[d]) {
      LetterAt(d);
    }
    forall d: nat | d < 10 ensures Alnum(DIGITS[d]) {
      DigitAt(d);
    }
    if 'A' <= c <= 'Z' {
      LetterAt(c as int - 'A' as int);
    } else if 'a' <= c <= 'z' {
      LetterAt(c as int - 'a' as int);
    } else if '0' <= c <= '9' {
      DigitAt(c as int - '0' as int);
    }
  }

  /** A segment of a token is written in the base64url alphabet, a word of SQL in letters, digits and
      underscores, and Base32 skips white space and hyphens. */
  lemma ClassTables(c: char)
    ensures Redaction.UrlChar(c) <==> B64.Value(B64.Url, c) >= 0
    ensures SqlGuard.WordChar(c) <==> Alnum(c) || c as int == 95
    ensures B32.Skipped(c) <==> Space(c) || c as int == 45
  {
  }

  /** Byte `i` of a big-endian number is its digit of that weight. */
  lemma {:induction false} BigEndianDigit(n: nat, v: nat, i: nat)
    requires i < n
    ensures BigEndian(n, v)[i] == v / Pow256(n - 1 - i) % 256
  {
    if i < n - 1 {
      BigEndianDigit(n - 1, v / 256, i);
      assert BigEndian(n, v)[i] == BigEndian(n - 1, v / 256)[i];
      DivideTwice(v, Pow256(n - 2 - i));
      assert Pow256(n - 1 - i) == 256 * Pow256(n - 2 - i);
    }
  }

  lemma DivideTwice(v: nat, p: nat)
    requires p > 0
    ensures v / 256 / p == v / (256 * p)
  {
    var q, r := v / 256 / p, v / 256 % p;
    assert v / 256 == q * p + r;
    assert v == q * (256 * p) + (256 * r + v % 256) by { assert 256 * (q * p) == q * (256 * p); }
    Bits.DivMod(q, 256 * r + v % 256, 256 * p);
  }

  /** Instants are cut to whole milliseconds towards the epoch. */
  lemma MillisCutTowardsZero(ticks: int)
    ensures var ms := Millis(ticks);
            if ticks >= 0 then 1_000_000 * ms <= ticks < 1_000_000 * (ms + 1)
            else 1_000_000 * (ms - 1) < ticks <= 1_000_000 * ms
  {
  }
}
