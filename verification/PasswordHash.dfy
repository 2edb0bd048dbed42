/** The Argon2id verifier string: printer, parser and password check
    (src/auth/crypto/argon2id_hasher.cpp). The key derivation itself is a parameter. */
module PasswordHash {
  import opened Types
  import opened Splitting
  import opened Base64
  import opened Base64Codecs

  datatype Cost = Cost(memory: nat, iterations: nat, parallelism: nat)

  datatype Parsed = Parsed(version: nat, cost: Cost, salt: seq<byte>, hash: seq<byte>)

  /** The stream written by hash_password. */
  function Printed(c: Cost, salt: seq<byte>, hash: seq<byte>): string {
    "$argon2id$v=19$m=" + Decimal(c.memory) + ",t=" + Decimal(c.iterations) + ",p=" + Decimal(c.parallelism)
    + "$" + Encoded(Standard, salt) + "$" + Encoded(Standard, hash)
  }

  // ---- Parsing ---------------------------------------------------------------------------------

  /** The three parameters, as far as they have been met. */
  datatype Seen = Seen(m: Option<nat>, t: Option<nat>, p: Option<nat>)

  predicate Tagged(s: string, tag: char) {
    |s| >= 2 && s[0] == tag && s[1] == '='
  }

  function TakeItem(seen: Seen, item: string): Option<Seen> {
    if !Tagged(item, 'm') && !Tagged(item, 't') && !Tagged(item, 'p') then None
    else
      var n := FromChars(item[2..]);
      if n.None? then None
      else if item[0] == 'm' then Some(seen.(m := n))
      else if item[0] == 't' then Some(seen.(t := n))
      else Some(seen.(p := n))
  }

  function TakeItems(seen: Seen, items: seq<string>): Option<Seen>
    decreases |items|
  {
    if items == [] then Some(seen)
    else
      var next := TakeItem(seen, items[0]);
      if next.None? then None else TakeItems(next.value, items[1..])
  }

  /** 8 KiB to 2 GiB, 1 to 100 passes, 1 to 64 lanes. */
  predicate CostAllowed(c: Cost) {
    8 <= c.memory <= 2097152 && 1 <= c.iterations <= 100 && 1 <= c.parallelism <= 64
  }

  function ParsedCost(s: string): Option<Cost> {
    var seen := TakeItems(Seen(None, None, None), Split(s, ','));
    if seen.None? || seen.value.m.None? || seen.value.t.None? || seen.value.p.None? then None
    else
      var c := Cost(seen.value.m.value, seen.value.t.value, seen.value.p.value);
      if CostAllowed(c) then Some(c) else None
  }

  function ParsedVersion(s: string): Option<nat> {
    if !Tagged(s, 'v') then None
    else
      var v := FromChars(s[2..]);
      if v.Some? && (v.value == 19 || v.value == 16) then v else None
  }

  function ParsedBytes(s: string, least: nat): Option<seq<byte>> {
    var b := Decoded(Standard, s);
    if b.None? || |b.value| < least || |b.value| > 128 then None else b
  }

  /** parse_phc_verifier. */
  function ParsedVerifier(v: string): Option<Parsed> {
    if !("$argon2id$" <= v) then None
    else
      var tokens := Split(v[1..], '$');
      if |tokens| != 5 || tokens[0] != "argon2id" then None
      else
        var version, cost := ParsedVersion(tokens[1]), ParsedCost(tokens[2]);
        var salt, hash := ParsedBytes(tokens[3], 1), ParsedBytes(tokens[4], 16);
        if version.None? || cost.None? || salt.None? || hash.None? then None
        else Some(Parsed(version.value, cost.value, salt.value, hash.value))
  }

  method ParseItems(text: string) returns (r: Option<Seen>)
    ensures r == TakeItems(Seen(None, None, None), Split(text, ','))
  {
    var items := Tokens(text, ',');
    var seen := Seen(None, None, None);
    assert items[0..] == items;
    for i := 0 to |items|
      invariant TakeItems(seen, items[i..]) == TakeItems(Seen(None, None, None), items)
    {
      assert items[i..][0] == items[i] && items[i..][1..] == items[i + 1..];
      var next := TakeItem(seen, items[i]);
      if next.None? {
        return None;
      }
      seen := next.value;
    }
    return Some(seen);
  }

  method ParseVerifier(v: string) returns (r: Option<Parsed>)
    ensures r == ParsedVerifier(v)
  {
    if !("$argon2id$" <= v) {
      return None;
    }
    var tokens := Tokens(v[1..], '$');
    if |tokens| != 5 || tokens[0] != "argon2id" {
      return None;
    }
    var version := ParsedVersion(tokens[1]);
    if version.None? {
      return None;
    }
    var seen := ParseItems(tokens[2]);
    if seen.None? || seen.value.m.None? || seen.value.t.None? || seen.value.p.None? {
      return None;
    }
    var cost := Cost(seen.value.m.value, seen.value.t.value, seen.value.p.value);
    if !CostAllowed(cost) {
      return None;
    }
    var salt := DecodeUnpadded(tokens[3]);
    if salt.None? || salt.value == [] || |salt.value| > 128 {
      return None;
    }
    var hash := DecodeUnpadded(tokens[4]);
    if hash.None? || |hash.value| < 16 || |hash.value| > 128 {
      return None;
    }
    return Some(Parsed(version.value, cost, salt.value, hash.value));
  }

  // ---- The accepted strings --------------------------------------------------------------------

  /** A tag, an equals sign and a 32-bit decimal number. */
  ghost predicate ItemIs(item: string, tag: char, n: nat) {
    Tagged(item, tag) && FromChars(item[2..]) == Some(n)
  }

  predicate Known(tag: char) {
    tag == 'm' || tag == 't' || tag == 'p'
  }

  ghost predicate IsItem(item: string) {
    exists tag, n :: Known(tag) && ItemIs(item, tag, n)
  }

  ghost predicate AllItems(items: seq<string>) {
    forall i :: 0 <= i < |items| ==> IsItem(items[i])
  }

  lemma AllItemsCons(items: seq<string>)
    requires items != []
    ensures AllItems(items) <==> IsItem(items[0]) && AllItems(items[1..])
  {
    hide IsItem;
    assert forall j :: 1 <= j < |items| ==> items[j] == items[1..][j - 1];
  }

  ghost predicate Untagged(items: seq<string>, tag: char) {
    forall j :: 0 <= j < |items| ==> !Tagged(items[j], tag)
  }

  /** The last item with the tag counts. */
  ghost predicate Gives(items: seq<string>, tag: char, n: nat) {
    exists i :: 0 <= i < |items| && ItemIs(items[i], tag, n) && Untagged(items[i + 1..], tag)
  }

  function Param(seen: Seen, tag: char): Option<nat> {
    if tag == 'm' then seen.m else if tag == 't' then seen.t else seen.p
  }

  lemma ItemTaken(seen: Seen, item: string)
    ensures TakeItem(seen, item).Some? <==> IsItem(item)
  {
    if TakeItem(seen, item).Some? {
      assert Known(item[0]) && ItemIs(item, item[0], FromChars(item[2..]).value);
    }
  }

  lemma ItemSets(seen: Seen, item: string, tag: char, n: nat)
    requires TakeItem(seen, item).Some? && Known(tag)
    ensures Param(TakeItem(seen, item).value, tag) == Some(n) <==>
            ItemIs(item, tag, n) || (!Tagged(item, tag) && Param(seen, tag) == Some(n))
  {
  }

  lemma GivesCons(items: seq<string>, tag: char, n: nat)
    requires items != []
    ensures Gives(items, tag, n) <==>
            Gives(items[1..], tag, n) || (ItemIs(items[0], tag, n) && Untagged(items[1..], tag))
    ensures Untagged(items, tag) <==> !Tagged(items[0], tag) && Untagged(items[1..], tag)
  {
    hide ItemIs, Tagged;
    var rest := items[1..];
    assert forall j :: 1 <= j < |items| ==> items[j] == rest[j - 1];
    if i :| 0 < i < |items| && ItemIs(items[i], tag, n) && Untagged(items[i + 1..], tag) {
      assert rest[i - 1] == items[i] && rest[i..] == items[i + 1..];
    }
    if i :| 0 <= i < |rest| && ItemIs(rest[i], tag, n) && Untagged(rest[i + 1..], tag) {
      assert items[i + 1] == rest[i] && items[i + 2..] == rest[i + 1..];
    }
  }

  /** Taking items succeeds when each is one, and leaves the last number of each tag. */
  lemma {:induction false} ItemsTaken(seen: Seen, items: seq<string>, tag: char, n: nat)
    requires Known(tag)
    ensures TakeItems(seen, items).Some? <==> AllItems(items)
    ensures TakeItems(seen, items).Some? ==>
            (Param(TakeItems(seen, items).value, tag) == Some(n) <==>
             Gives(items, tag, n) || (Untagged(items, tag) && Param(seen, tag) == Some(n)))
    decreases |items|
  {
    hide IsItem, TakeItem, ItemIs, Param;
    if items != [] {
      var rest := items[1..];
      ItemTaken(seen, items[0]);
      GivesCons(items, tag, n);
      AllItemsCons(items);
      if TakeItem(seen, items[0]).Some? {
        ItemSets(seen, items[0], tag, n);
        ItemsTaken(TakeItem(seen, items[0]).value, rest, tag, n);
      }
      hide AllItems, Gives, Untagged;
    }
  }

  /** Items between commas, each parameter given, the last value of each within the limits. */
  ghost predicate CostSpelled(s: string, c: Cost, items: seq<string>) {
    && Joins(s, ',', items) && AllItems(items)
    && 8 <= c.memory <= 2097152 && 1 <= c.iterations <= 100 && 1 <= c.parallelism <= 64
    && Gives(items, 'm', c.memory) && Gives(items, 't', c.iterations) && Gives(items, 'p', c.parallelism)
  }

  lemma ItemsCost(items: seq<string>, c: Cost)
    ensures TakeItems(Seen(None, None, None), items) ==
            Some(Seen(Some(c.memory), Some(c.iterations), Some(c.parallelism))) <==>
            AllItems(items) && Gives(items, 'm', c.memory) && Gives(items, 't', c.iterations) &&
              Gives(items, 'p', c.parallelism)
  {
    hide TakeItems, AllItems, Gives, Untagged;
    var none := Seen(None, None, None);
    ItemsTaken(none, items, 'm', c.memory);
    ItemsTaken(none, items, 't', c.iterations);
    ItemsTaken(none, items, 'p', c.parallelism);
  }

  lemma CostFrom(s: string, c: Cost)
    ensures ParsedCost(s) == Some(c) <==>
            CostAllowed(c) &&
            TakeItems(Seen(None, None, None), Split(s, ',')) ==
              Some(Seen(Some(c.memory), Some(c.iterations), Some(c.parallelism)))
  {
    hide Split, TakeItems;
  }

  lemma {:induction false} CostExactly(s: string, c: Cost)
    ensures ParsedCost(s) == Some(c) <==> exists items :: CostSpelled(s, c, items)
  {
    hide ParsedCost, Split, Joins, TakeItems, AllItems, Gives;
    CostFrom(s, c);
    var items := Split(s, ',');
    ItemsCost(items, c);
    SplitExactly(s, ',', items);
    assert ParsedCost(s) == Some(c) ==> CostSpelled(s, c, items);
    if items' :| CostSpelled(s, c, items') {
      SplitExactly(s, ',', items');
    }
  }

  /** A dollar sign before each part, and perhaps one at the end. */
  ghost predicate PartsSpelled(v: string, parts: seq<string>) {
    && (forall i :: 0 <= i < |parts| ==> '$' !in parts[i])
    && (v == "$" + Join(parts, '$') || v == "$" + Join(parts, '$') + "$")
  }

  /** Five parts: the name, the version, the costs, the salt and the hash. */
  ghost predicate VerifierSpelled(v: string, x: Parsed, parts: seq<string>, items: seq<string>) {
    && |parts| == 5 && PartsSpelled(v, parts) && parts[0] == "argon2id" && ItemIs(parts[1], 'v', x.version)
    && (x.version == 19 || x.version == 16)
    && CostSpelled(parts[2], x.cost, items)
    && Decoded(Standard, parts[3]) == Some(x.salt) && 1 <= |x.salt| <= 128
    && Decoded(Standard, parts[4]) == Some(x.hash) && 16 <= |x.hash| <= 128
  }

  lemma DecodedNonEmpty(t: string)
    requires Decoded(Standard, t).Some? && Decoded(Standard, t).value != []
    ensures t != []
  {
    if t == [] {
      assert Unpadded(t) == [] && Parse(Standard, []) == Some([]);
      BytesOfNothing();
    }
  }

  lemma BytesOfNothing()
    ensures Bytes([]) == []
  {
    BytesOfDigits([]);
    DigitsLength([]);
  }

  lemma NamePrefix(parts: seq<string>)
    requires |parts| > 1 && parts[0] == "argon2id"
    ensures "$argon2id$" <= "$" + Join(parts, '$')
  {
    var name, rest := parts[0], Join(parts[1..], '$');
    Associative("$", name + "$", rest);
    assert "$" + (name + "$") == "$argon2id$";
  }

  /** The parser's answer for five parts, whatever else holds of them. */
  lemma PartsExactly(v: string, x: Parsed, parts: seq<string>)
    requires "$argon2id$" <= v && Split(v[1..], '$') == parts && |parts| == 5
    ensures ParsedVerifier(v) == Some(x) <==>
            && parts[0] == "argon2id" && ItemIs(parts[1], 'v', x.version) && (x.version == 19 || x.version == 16)
            && ParsedCost(parts[2]) == Some(x.cost)
            && Decoded(Standard, parts[3]) == Some(x.salt) && 1 <= |x.salt| <= 128
            && Decoded(Standard, parts[4]) == Some(x.hash) && 16 <= |x.hash| <= 128
  {
    hide Split, ParsedCost, Decoded, FromChars;
  }

  lemma {:induction false} SpelledSplits(v: string, parts: seq<string>)
    requires PartsSpelled(v, parts) && |parts| > 1 && parts[0] == "argon2id" && parts[|parts| - 1] != []
    ensures "$argon2id$" <= v && Split(v[1..], '$') == parts
  {
    hide Split, Join;
    NamePrefix(parts);
    assert v[1..] == Join(parts, '$') || v[1..] == Join(parts, '$') + ['$'];
    SplitExactly(v[1..], '$', parts);
  }

  lemma {:induction false} SplitIsSpelled(v: string)
    requires "$argon2id$" <= v
    ensures PartsSpelled(v, Split(v[1..], '$'))
  {
    hide Split;
    var parts := Split(v[1..], '$');
    SplitExactly(v[1..], '$', parts);
    assert v == "$" + v[1..];
    Associative("$", Join(parts, '$'), "$");
  }

  lemma SpelledIsAccepted(v: string, x: Parsed, parts: seq<string>, items: seq<string>)
    requires VerifierSpelled(v, x, parts, items)
    ensures ParsedVerifier(v) == Some(x)
  {
    hide CostSpelled, Decoded, ParsedVerifier, Split, PartsSpelled, ItemIs;
    DecodedNonEmpty(parts[4]);
    CostExactly(parts[2], x.cost);
    SpelledSplits(v, parts);
    PartsExactly(v, x, parts);
  }

  lemma AcceptedSplits(v: string)
    requires ParsedVerifier(v).Some?
    ensures "$argon2id$" <= v && |Split(v[1..], '$')| == 5
  {
    hide Split, ParsedCost, ParsedVersion, ParsedBytes;
  }

  lemma {:induction false} AcceptedIsSpelled(v: string, x: Parsed) returns (parts: seq<string>, items: seq<string>)
    requires ParsedVerifier(v) == Some(x)
    ensures VerifierSpelled(v, x, parts, items)
  {
    hide ParsedVerifier, Split, CostSpelled, Decoded, ItemIs, PartsSpelled;
    AcceptedSplits(v);
    parts := Split(v[1..], '$');
    SplitIsSpelled(v);
    PartsExactly(v, x, parts);
    CostExactly(parts[2], x.cost);
    items :| CostSpelled(parts[2], x.cost, items);
  }

  /** The accepted strings, exactly: `$argon2id$v=..$..$..$..`, perhaps with one more dollar sign; version
      16 or 19; `m`, `t` and `p` in any order, perhaps with one more comma, the last of each counting and
      within the limits; salt and hash in base64 of allowed lengths. */
  lemma AcceptedVerifiers(v: string, x: Parsed)
    ensures ParsedVerifier(v) == Some(x) <==> exists parts, items :: VerifierSpelled(v, x, parts, items)
  {
    if ParsedVerifier(v) == Some(x) {
      var parts, items := AcceptedIsSpelled(v, x);
    }
    if parts, items :| VerifierSpelled(v, x, parts, items) {
      SpelledIsAccepted(v, x, parts, items);
    }
  }

  // ---- Printing and parsing --------------------------------------------------------------------

  function Item(tag: char, n: nat): string {
    [tag, '='] + Decimal(n)
  }

  function CostText(c: Cost): string {
    Join([Item('m', c.memory), Item('t', c.iterations), Item('p', c.parallelism)], ',')
  }

  function Pieces(c: Cost, salt: seq<byte>, hash: seq<byte>): seq<string> {
    ["argon2id", "v=19", CostText(c), Encoded(Standard, salt), Encoded(Standard, hash)]
  }

  lemma CostTextIs(c: Cost)
    ensures CostText(c) == "m=" + Decimal(c.memory) + ",t=" + Decimal(c.iterations) + ",p=" + Decimal(c.parallelism)
  {
    var x, y, z := Item('m', c.memory), Item('t', c.iterations), Item('p', c.parallelism);
    JoinThree(x, y, z, ',');
    assert x + "," + (y + "," + z) ==
           ("m=" + Decimal(c.memory)) + (",t=" + Decimal(c.iterations)) + (",p=" + Decimal(c.parallelism));
  }

  lemma JoinTwo(x: string, y: string, sep: char)
    ensures Join([x, y], sep) == x + [sep] + y
  {
    assert [x, y][1..] == [y];
  }

  lemma JoinThree(x: string, y: string, z: string, sep: char)
    ensures Join([x, y, z], sep) == x + [sep] + (y + [sep] + z)
  {
    assert [x, y, z][1..] == [y, z];
    JoinTwo(y, z, sep);
  }

  lemma JoinFive(a: string, b: string, c: string, d: string, e: string, sep: char)
    ensures Join([a, b, c, d, e], sep) == a + [sep] + (b + [sep] + (c + [sep] + (d + [sep] + e)))
  {
    JoinThree(c, d, e, sep);
    assert [b, c, d, e][1..] == [c, d, e];
    assert [a, b, c, d, e][1..] == [b, c, d, e];
  }

  lemma PrintedIsJoin(c: Cost, salt: seq<byte>, hash: seq<byte>)
    ensures Printed(c, salt, hash) == "$" + Join(Pieces(c, salt, hash), '$')
  {
    hide Decimal, Encoded, CostText;
    CostTextIs(c);
    var ps := Pieces(c, salt, hash);
    JoinFive(ps[0], ps[1], ps[2], ps[3], ps[4], '$');
    var tail := CostText(c) + "$" + (ps[3] + "$" + ps[4]);
    assert Printed(c, salt, hash) == "$argon2id$v=19$" + tail;
    assert "$" + ("argon2id" + "$" + ("v=19" + "$" + tail)) == "$argon2id$v=19$" + tail;
  }

  lemma {:induction false} DecimalIsPlain(n: nat, c: char)
    requires !IsDigit(c)
    ensures c !in Decimal(n)
  {
    DecimalReads(n);
  }

  lemma CostTextIsPlain(c: Cost)
    ensures '$' !in CostText(c)
  {
    CostTextIs(c);
    DecimalIsPlain(c.memory, '$');
    DecimalIsPlain(c.iterations, '$');
    DecimalIsPlain(c.parallelism, '$');
  }

  lemma EncodedNonEmpty(bs: seq<byte>)
    requires bs != []
    ensures Encoded(Standard, bs) != []
  {
    DigitsLength(bs);
  }

  lemma PiecesSplit(c: Cost, salt: seq<byte>, hash: seq<byte>)
    requires hash != []
    ensures Split(Printed(c, salt, hash)[1..], '$') == Pieces(c, salt, hash)
    ensures "$argon2id$" <= Printed(c, salt, hash)
  {
    PrintedIsJoin(c, salt, hash);
    var ps := Pieces(c, salt, hash);
    CostTextIsPlain(c);
    TextIsClean(Standard, Digits(salt));
    TextIsClean(Standard, Digits(hash));
    EncodedNonEmpty(hash);
    assert '$' !in ps[0] && '$' !in ps[1] && '$' !in ps[2] && '$' !in ps[3] && '$' !in ps[4];
    assert Printed(c, salt, hash)[1..] == Join(ps, '$');
    SplitJoin(ps, '$');
  }

  predicate Cost32(c: Cost) {
    c.memory < 0x1_0000_0000 && c.iterations < 0x1_0000_0000 && c.parallelism < 0x1_0000_0000
  }

  lemma ItemReads(seen: Seen, tag: char, n: nat)
    requires n < 0x1_0000_0000 && (tag == 'm' || tag == 't' || tag == 'p')
    ensures TakeItem(seen, Item(tag, n)) ==
            Some(if tag == 'm' then seen.(m := Some(n))
                 else if tag == 't' then seen.(t := Some(n))
                 else seen.(p := Some(n)))
    ensures ',' !in Item(tag, n)
  {
    FromCharsDecimal(n);
    DecimalIsPlain(n, ',');
    assert Item(tag, n)[2..] == Decimal(n);
  }

  lemma CostReads(c: Cost)
    requires Cost32(c)
    ensures ParsedCost(CostText(c)) == if CostAllowed(c) then Some(c) else None
  {
    var x, y, z := Item('m', c.memory), Item('t', c.iterations), Item('p', c.parallelism);
    var none := Seen(None, None, None);
    ItemReads(none, 'm', c.memory);
    var s1 := none.(m := Some(c.memory));
    ItemReads(s1, 't', c.iterations);
    var s2 := s1.(t := Some(c.iterations));
    ItemReads(s2, 'p', c.parallelism);
    SplitJoin([x, y, z], ',');
    assert [x, y, z][1..] == [y, z] && [y, z][1..] == [z] && [z][1..] == [];
    hide TakeItem, Item;
    assert TakeItems(none, [x, y, z]) == TakeItems(s1, [y, z]) == TakeItems(s2, [z]);
  }

  lemma VersionReads()
    ensures ParsedVersion("v=19") == Some(19)
  {
    var s := "19";
    assert "v=19"[2..] == s && s[..1] == "1" && "1"[..0] == "";
    assert DecimalValue(s) == 19;
  }

  /** Parsing the printed string gives back every parameter, salt and hash, exactly when they lie within
      the parser's limits; beyond them it gives nothing. */
  lemma PrintedParses(c: Cost, salt: seq<byte>, hash: seq<byte>)
    requires Cost32(c) && salt != [] && |hash| >= 16
    ensures ParsedVerifier(Printed(c, salt, hash)) ==
            if CostAllowed(c) && |salt| <= 128 && |hash| <= 128 then Some(Parsed(19, c, salt, hash)) else None
  {
    hide Printed, ParsedCost, CostText, ParsedVersion, Decoded, Encoded, Split;
    PiecesSplit(c, salt, hash);
    CostReads(c);
    VersionReads();
    Base64.RoundTrip(Standard, salt);
    Base64.RoundTrip(Standard, hash);
  }

  // ---- The password check ----------------------------------------------------------------------

  datatype Config = Config(cost: Cost, saltLength: nat, hashLength: nat)

  function AtLeast(n: nat, least: nat): nat {
    if n < least then least else n
  }

  /** The constructor raises every setting to its minimum and lowers none. */
  function Raised(c: Config): Config {
    Config(Cost(AtLeast(c.cost.memory, 8), AtLeast(c.cost.iterations, 1), AtLeast(c.cost.parallelism, 1)),
           AtLeast(c.saltLength, 8), AtLeast(c.hashLength, 16))
  }

  /** What the key derivation is given. */
  datatype Work = Work(password: seq<byte>, salt: seq<byte>, cost: Cost, version: nat, length: nat)

  function HashPassword(kdf: Work -> Option<seq<byte>>, c: Config, password: seq<byte>,
                        salt: seq<byte>): Option<string> {
    var derived := kdf(Work(password, salt, c.cost, 19, c.hashLength));
    if derived.None? then None else Some(Printed(c.cost, salt, derived.value))
  }

  function VerifyPassword(kdf: Work -> Option<seq<byte>>, password: seq<byte>, stored: string): bool {
    var parsed := ParsedVerifier(stored);
    && parsed.Some?
    && kdf(Work(password, parsed.value.salt, parsed.value.cost, parsed.value.version, |parsed.value.hash|)) ==
       Some(parsed.value.hash)
  }

  /** A stored verifier accepts a password exactly when the settings are within the parser's limits and
      the password derives the same key; so a hasher accepts its own verifiers exactly when they are. */
  lemma OwnVerifierAccepted(kdf: Work -> Option<seq<byte>>, config: Config, password: seq<byte>, salt: seq<byte>,
                            other: seq<byte>)
    requires Cost32(Raised(config).cost) && |salt| == Raised(config).saltLength
    requires forall w :: kdf(w).Some? ==> |kdf(w).value| == w.length
    requires HashPassword(kdf, Raised(config), password, salt).Some?
    ensures var c, stored := Raised(config), HashPassword(kdf, Raised(config), password, salt).value;
            var limits := c.cost.memory <= 2097152 && c.cost.iterations <= 100 && c.cost.parallelism <= 64 &&
                          c.saltLength <= 128 && c.hashLength <= 128;
            && (VerifyPassword(kdf, password, stored) <==> limits)
            && (VerifyPassword(kdf, other, stored) <==>
                limits &&
                kdf(Work(other, salt, c.cost, 19, c.hashLength)) == kdf(Work(password, salt, c.cost, 19, c.hashLength)))
  {
    hide ParsedVerifier, Printed;
    var c := Raised(config);
    PrintedParses(c.cost, salt, kdf(Work(password, salt, c.cost, 19, c.hashLength)).value);
  }

  /** A password passes against a stored string exactly when the string is a verifier and the key derived
      with the salt, cost and version it names, as long as its hash, is that hash. */
  lemma PasswordPassesExactly(kdf: Work -> Option<seq<byte>>, password: seq<byte>, stored: string)
    ensures VerifyPassword(kdf, password, stored) <==>
            exists x, parts, items :: VerifierSpelled(stored, x, parts, items) &&
              kdf(Work(password, x.salt, x.cost, x.version, |x.hash|)) == Some(x.hash)
  {
    hide ParsedVerifier, VerifierSpelled;
    if ParsedVerifier(stored).Some? {
      AcceptedVerifiers(stored, ParsedVerifier(stored).value);
    }
    forall x, parts, items | VerifierSpelled(stored, x, parts, items) ensures ParsedVerifier(stored) == Some(x) {
      AcceptedVerifiers(stored, x);
    }
  }

  /** The constructor keeps a setting that is at or above its minimum and raises any other to it. */
  lemma RaisedToMinimum(c: Config)
    ensures var r := Raised(c);
            && (if c.cost.memory >= 8 then r.cost.memory == c.cost.memory else r.cost.memory == 8)
            && (if c.cost.iterations >= 1 then r.cost.iterations == c.cost.iterations else r.cost.iterations == 1)
            && (if c.cost.parallelism >= 1 then r.cost.parallelism == c.cost.parallelism else r.cost.parallelism == 1)
            && (if c.saltLength >= 8 then r.saltLength == c.saltLength else r.saltLength == 8)
            && (if c.hashLength >= 16 then r.hashLength == c.hashLength else r.hashLength == 16)
  {
  }
}
