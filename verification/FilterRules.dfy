/** What the query validator accepts, rule by rule (src/audit/query/audit_query_validator.cpp). */
module FilterRules {
  import opened Types
  import opened Wire
  import opened Splitting
  import opened QueryFilter
  import opened PageCursor
  import opened PagedQuery

  // ---- Texts -----------------------------------------------------------------------------------

  /** Up to `most` printable ASCII characters, none of them a quote of any kind. */
  ghost predicate PlainText(s: text, most: nat) {
    1 <= |s| <= most && forall b :: b in s ==> 32 <= b <= 126 && b != 34 && b != 39 && b != 96
  }

  /** [a-z0-9_]+ */
  ghost predicate Word(p: text) {
    p != [] && forall b :: b in p ==> 97 <= b <= 122 || 48 <= b <= 57 || b == 95
  }

  const DOT: byte := 46

  ghost predicate Words(parts: seq<text>) {
    forall i :: 0 <= i < |parts| ==> Word(parts[i])
  }

  /** ^[a-z0-9_]+(\.[a-z0-9_]+)+$ */
  ghost predicate Dotted(s: text) {
    exists parts :: |parts| >= 2 && Words(parts) && s == Join(parts, DOT)
  }

  /** Words with single dots between them. */
  ghost predicate Chain(s: text) {
    && s != [] && s[0] != DOT && s[|s| - 1] != DOT
    && (forall i :: 0 <= i < |s| ==> WordByte(s[i]) || s[i] == DOT)
    && (forall i :: 0 <= i < |s| - 1 ==> s[i] != DOT || s[i + 1] != DOT)
  }

  lemma WordIsChain(p: text)
    requires Word(p)
    ensures Chain(p) && DOT !in p
  {
    forall i | 0 <= i < |p| ensures WordByte(p[i]) && p[i] != DOT {
      assert p[i] in p;
    }
  }

  lemma LongerChain(p: text, rest: text)
    requires Word(p) && Chain(rest)
    ensures Chain(p + [DOT] + rest) && DOT in p + [DOT] + rest
  {
    WordIsChain(p);
    var s, n := p + [DOT] + rest, |p|;
    assert s[n] == DOT;
    assert forall i :: 0 <= i < |s| ==> s[i] == if i < n then p[i] else if i == n then DOT else rest[i - n - 1];
  }

  lemma {:induction false} JoinIsChain(parts: seq<text>)
    requires parts != [] && Words(parts)
    ensures Chain(Join(parts, DOT)) && (|parts| > 1 ==> DOT in Join(parts, DOT))
  {
    if |parts| == 1 {
      WordIsChain(parts[0]);
    } else {
      JoinIsChain(parts[1..]);
      LongerChain(parts[0], Join(parts[1..], DOT));
    }
  }

  lemma {:induction false} ChainIsJoin(s: text) returns (parts: seq<text>)
    requires Chain(s)
    ensures parts != [] && Words(parts) && Join(parts, DOT) == s && (DOT in s ==> |parts| > 1)
    decreases |s|
  {
    var n := Reach(s, DOT);
    assert forall b :: b in s[..n] ==> b != DOT;
    if n == |s| {
      assert s[..n] == s;
      parts := [s];
    } else {
      var rest := ChainIsJoin(s[n + 1..]);
      parts := [s[..n]] + rest;
      assert parts[1..] == rest && s == s[..n] + [DOT] + s[n + 1..];
    }
  }

  /** The checks on the characters are the regular expression. */
  lemma DottedExactly(s: text)
    ensures DottedWords(s) <==> Dotted(s)
  {
    if DottedWords(s) {
      ChainFromDots(s);
      var parts := ChainIsJoin(s);
    }
    if parts :| |parts| >= 2 && Words(parts) && s == Join(parts, DOT) {
      JoinIsChain(parts);
      DotsFromChain(s);
    }
  }

  lemma ChainFromDots(s: text)
    requires DottedWords(s)
    ensures Chain(s) && DOT in s
  {
  }

  lemma DotsFromChain(s: text)
    requires Chain(s) && DOT in s
    ensures DottedWords(s)
  {
  }

  lemma PlainExactly(s: text, most: nat)
    ensures SafeIdentifier(s, most) <==> PlainText(s, most)
  {
    if PlainText(s, most) {
      forall i | 0 <= i < |s|
        ensures 0x20 <= s[i] <= 0x7E && s[i] != '\'' as nat && s[i] != '"' as nat && s[i] != '`' as nat
      {
        assert s[i] in s;
      }
    }
  }

  // ---- The rules -------------------------------------------------------------------------------

  const HOUR: int := 3_600_000_000_000

  /** The bounds that count: those given, or the default window around the clock. */
  function StartOf(f: Filter, c: Config, now: int): int {
    if f.startAt.Some? then f.startAt.value else now - c.defaultWindowHours * HOUR
  }

  function EndOf(f: Filter, c: Config, now: int): int {
    if f.endAt.Some? then f.endAt.value else now + 300_000_000_000
  }

  ghost predicate TypesFit(ts: seq<text>) {
    forall i :: 0 <= i < |ts| ==> 1 <= |ts[i]| <= 64 && Dotted(ts[i])
  }

  const RULES: nat := 11

  /** The rules, in the order they are checked. */
  ghost predicate Keeps(f: Filter, c: Config, now: int, rule: nat) {
    match rule
    case 0 => f.startAt.Some? <==> f.endAt.Some?
    case 1 => StartOf(f, c, now) < EndOf(f, c, now)
    case 2 => EndOf(f, c, now) - StartOf(f, c, now) < (c.maxWindowHours + 1) * HOUR
    case 3 => f.pageSize <= c.maxPageLimit
    case 4 => |f.eventTypes| <= 20
    case 5 => TypesFit(f.eventTypes)
    case 6 => f.actorId.Some? ==> f.actorType.Some? && f.actorType.value > 0
    case 7 => f.actorId.Some? ==> PlainText(f.actorId.value, 128)
    case 8 => f.targetId.Some? ==> f.targetType.Some? && f.targetType.value > 0
    case 9 => f.targetId.Some? ==> PlainText(f.targetId.value, 128)
    case 10 => f.correlationId.Some? ==> PlainText(f.correlationId.value, 64)
    case _ => true
  }

  /** The error that a violation of the rule gives. */
  function ErrorOf(rule: nat): Verdict
    requires rule < RULES
  {
    match rule
    case 0 => MissingTimeRangeBound
    case 1 => InvalidTimeRangeOrder
    case 2 => TimeWindowExceeded
    case 3 => PageSizeExceeded
    case 4 => TooManyEventTypes
    case 5 => InvalidEventType
    case 6 => InvalidActorTargetRequirement
    case 7 => InvalidCharacterInIdentifier
    case 8 => InvalidActorTargetRequirement
    case 9 => InvalidCharacterInIdentifier
    case _ => InvalidCorrelationId
  }

  ghost predicate AllKept(f: Filter, c: Config, now: int) {
    forall n: nat :: n < RULES ==> Keeps(f, c, now, n)
  }

  /** Rule `n` is the first one violated. */
  ghost predicate FirstBroken(f: Filter, c: Config, now: int, n: nat) {
    n < RULES && !Keeps(f, c, now, n) && forall m: nat :: m < n ==> Keeps(f, c, now, m)
  }

  /** The filter with the bounds that count, and the default page size for none. */
  function Completed(f: Filter, c: Config, now: int): Filter {
    f.(startAt := Some(StartOf(f, c, now)), endAt := Some(EndOf(f, c, now)),
       pageSize := if f.pageSize == 0 then c.defaultPageLimit else f.pageSize)
  }

  lemma TypesExactly(ts: seq<text>)
    ensures (exists i :: 0 <= i < |ts| && !ValidEventType(ts[i])) <==> !TypesFit(ts)
  {
    forall i | 0 <= i < |ts| ensures ValidEventType(ts[i]) <==> 1 <= |ts[i]| <= 64 && Dotted(ts[i]) {
      DottedExactly(ts[i]);
    }
  }

  lemma WindowExactly(span: int, hours: nat)
    requires span > 0
    ensures span / TICKS_PER_HOUR > hours <==> span >= (hours + 1) * HOUR
  {
    assert TICKS_PER_HOUR == HOUR;
    assert span == span / HOUR * HOUR + span % HOUR;
  }

  /** The verdict is the error of the first rule that is violated, and acceptance when none is. */
  lemma VerdictExactly(f: Filter, c: Config, now: int)
    ensures Normalized(f, c, now).Accepted? <==> AllKept(f, c, now)
    ensures AllKept(f, c, now) ==> Normalized(f, c, now) == Accepted(Completed(f, c, now))
    ensures forall n: nat :: FirstBroken(f, c, now, n) ==> Normalized(f, c, now) == ErrorOf(n)
  {
    hide Normalized, Keeps;
    forall n: nat | FirstBroken(f, c, now, n) ensures Normalized(f, c, now) == ErrorOf(n) {
      BrokenRule(f, c, now, n);
    }
    if AllKept(f, c, now) {
      KeptIsAccepted(f, c, now);
    } else {
      var n := FirstRuleBroken(f, c, now, RULES);
      BrokenRule(f, c, now, n);
    }
  }

  lemma {:induction false} FirstRuleBroken(f: Filter, c: Config, now: int, k: nat) returns (n: nat)
    requires k <= RULES && exists m: nat :: m < k && !Keeps(f, c, now, m)
    ensures FirstBroken(f, c, now, n)
  {
    hide Keeps;
    if m: nat :| m < k - 1 && !Keeps(f, c, now, m) {
      n := FirstRuleBroken(f, c, now, k - 1);
    } else {
      n := k - 1;
    }
  }

  lemma KeptIsAccepted(f: Filter, c: Config, now: int)
    requires AllKept(f, c, now)
    ensures Normalized(f, c, now) == Accepted(Completed(f, c, now))
  {
    hide SafeIdentifier, PlainText, TypesFit, ValidEventType, PartySafe, PartyGiven;
    FieldConditions(f);
    WindowCondition(f, c, now);
    assert Keeps(f, c, now, 0) && Keeps(f, c, now, 1) && Keeps(f, c, now, 2) && Keeps(f, c, now, 3);
    assert Keeps(f, c, now, 4) && Keeps(f, c, now, 5) && Keeps(f, c, now, 6) && Keeps(f, c, now, 7);
    assert Keeps(f, c, now, 8) && Keeps(f, c, now, 9) && Keeps(f, c, now, 10);
  }

  lemma BrokenRule(f: Filter, c: Config, now: int, n: nat)
    requires FirstBroken(f, c, now, n)
    ensures Normalized(f, c, now) == ErrorOf(n)
  {
    hide SafeIdentifier, PlainText, TypesFit, ValidEventType, PartySafe, PartyGiven;
    FieldConditions(f);
    WindowCondition(f, c, now);
    assert n > 0 ==> Keeps(f, c, now, 0);
    assert n > 1 ==> Keeps(f, c, now, 1);
    assert n > 2 ==> Keeps(f, c, now, 2);
    assert n > 3 ==> Keeps(f, c, now, 3);
    assert n > 4 ==> Keeps(f, c, now, 4);
    assert n > 5 ==> Keeps(f, c, now, 5);
    assert n > 6 ==> Keeps(f, c, now, 6);
    assert n > 7 ==> Keeps(f, c, now, 7);
    assert n > 8 ==> Keeps(f, c, now, 8);
    assert n > 9 ==> Keeps(f, c, now, 9);
  }

  /** The conditions of the rules are those the validator tests. */
  lemma FieldConditions(f: Filter)
    ensures (exists i :: 0 <= i < |f.eventTypes| && !ValidEventType(f.eventTypes[i])) <==> !TypesFit(f.eventTypes)
    ensures PartyGiven(f.actorType, f.actorId) <==>
            (f.actorId.Some? ==> f.actorType.Some? && f.actorType.value > 0)
    ensures PartyGiven(f.targetType, f.targetId) <==>
            (f.targetId.Some? ==> f.targetType.Some? && f.targetType.value > 0)
    ensures PartySafe(f.actorId) <==> (f.actorId.Some? ==> PlainText(f.actorId.value, 128))
    ensures PartySafe(f.targetId) <==> (f.targetId.Some? ==> PlainText(f.targetId.value, 128))
    ensures f.correlationId.Some? ==>
              (SafeIdentifier(f.correlationId.value, 64) <==> PlainText(f.correlationId.value, 64))
  {
    hide SafeIdentifier, PlainText, TypesFit, ValidEventType;
    TypesExactly(f.eventTypes);
    if f.actorId.Some? { PlainExactly(f.actorId.value, 128); }
    if f.targetId.Some? { PlainExactly(f.targetId.value, 128); }
    if f.correlationId.Some? { PlainExactly(f.correlationId.value, 64); }
  }

  lemma WindowCondition(f: Filter, c: Config, now: int)
    ensures var span := EndOf(f, c, now) - StartOf(f, c, now);
            span > 0 ==> (span / TICKS_PER_HOUR > c.maxWindowHours <==> span >= (c.maxWindowHours + 1) * HOUR)
  {
    if EndOf(f, c, now) - StartOf(f, c, now) > 0 {
      WindowExactly(EndOf(f, c, now) - StartOf(f, c, now), c.maxWindowHours);
    }
  }

  /** With its token: accepted exactly when every rule is kept and the token, if there is one, opens under
      the filter's own hash; a token that does not is refused last. */
  lemma AcceptedExactly(env: Env, f: Filter, now: int)
    requires Sane(env)
    ensures forall n: nat :: FirstBroken(f, env.config, now, n) ==> Validation(env, f, now) == ErrorOf(n)
    ensures AllKept(f, env.config, now) ==>
              var g := Completed(f, env.config, now);
              Validation(env, f, now) ==
              if ClockRange(g) && g.pageToken != "" && !exists c :: Opens(g.pageToken, FilterHash(env, g), c)
              then InvalidPageToken else Accepted(g)
  {
    hide Normalized, Opens, FilterHash, Keeps, Completed;
    VerdictExactly(f, env.config, now);
    var v := Normalized(f, env.config, now);
    if v.Accepted? && ClockRange(v.filter) {
      TokenReadsExactly(env, v.filter);
    }
  }

  lemma TokenReadsExactly(env: Env, g: Filter)
    requires Sane(env) && ClockRange(g)
    ensures TokenReads(env, g) <==> g.pageToken == "" || exists c :: Opens(g.pageToken, FilterHash(env, g), c)
  {
    hide Opens, FilterHash;
    if g.pageToken == "" {
      assert CursorFor(env, g, None);
    } else if c :| Opens(g.pageToken, FilterHash(env, g), c) {
      assert CursorFor(env, g, Some(c));
    }
  }

  // ---- The validator ---------------------------------------------------------------------------

  /** is_safe_identifier. */
  method IsSafeIdentifier(s: text, most: nat) returns (ok: bool)
    ensures ok <==> PlainText(s, most)
  {
    PlainExactly(s, most);
    if s == [] || |s| > most {
      return false;
    }
    for i := 0 to |s|
      invariant forall j :: 0 <= j < i ==>
                  0x20 <= s[j] <= 0x7E && s[j] != '\'' as nat && s[j] != '"' as nat && s[j] != '`' as nat
    {
      if s[i] < 0x20 || s[i] > 0x7E || s[i] == '\'' as nat || s[i] == '"' as nat || s[i] == '`' as nat {
        return false;
      }
    }
    return true;
  }

  /** The loop over the event types: the first one that does not fit is refused. */
  method TypesAreValid(ts: seq<text>) returns (ok: bool)
    ensures ok <==> TypesFit(ts)
  {
    hide ValidEventType, TypesFit;
    TypesExactly(ts);
    for i := 0 to |ts|
      invariant forall j :: 0 <= j < i ==> ValidEventType(ts[j])
    {
      if !ValidEventType(ts[i]) {
        return false;
      }
    }
    return true;
  }

  /** The checks on an actor or a target: the error, if there is one. */
  method CheckParty(kind: Option<byte>, id: Option<text>) returns (error: Option<Verdict>)
    ensures error ==
            if id.Some? && (kind.None? || kind.value == 0) then Some(InvalidActorTargetRequirement)
            else if id.Some? && !PlainText(id.value, 128) then Some(InvalidCharacterInIdentifier)
            else None
  {
    hide PlainText;
    if id.Some? {
      if kind.None? || kind.value == 0 {
        return Some(InvalidActorTargetRequirement);
      }
      var safe := IsSafeIdentifier(id.value, 128);
      if !safe {
        return Some(InvalidCharacterInIdentifier);
      }
    }
    return None;
  }

  /** The checks on the identity fields. */
  method ValidateFields(filter: Filter) returns (v: Verdict)
    ensures v == CheckFields(filter)
  {
    hide PlainText, TypesFit, ValidEventType, SafeIdentifier;
    FieldConditions(filter);
    if |filter.eventTypes| > 20 {
      return TooManyEventTypes;
    }
    var fit := TypesAreValid(filter.eventTypes);
    if !fit {
      return InvalidEventType;
    }
    var error := CheckParty(filter.actorType, filter.actorId);
    if error.Some? {
      return error.value;
    }
    error := CheckParty(filter.targetType, filter.targetId);
    if error.Some? {
      return error.value;
    }
    if filter.correlationId.Some? {
      var safe := IsSafeIdentifier(filter.correlationId.value, 64);
      if !safe {
        return InvalidCorrelationId;
      }
    }
    return Accepted(filter);
  }

  /** validate_and_normalize up to the page token: defaults are written into the filter, the first
      violated rule is reported. */
  method ValidateAndNormalize(f: Filter, c: Config, now: int) returns (v: Verdict)
    ensures v == Normalized(f, c, now)
    ensures v.Accepted? <==> AllKept(f, c, now)
    ensures v.Accepted? ==> v.filter == Completed(f, c, now)
    ensures forall n: nat :: FirstBroken(f, c, now, n) ==> v == ErrorOf(n)
  {
    hide CheckFields, AllKept, FirstBroken, ErrorOf, Completed;
    VerdictExactly(f, c, now);
    var filter := f;
    if filter.startAt.None? && filter.endAt.None? {
      filter := filter.(startAt := Some(now - c.defaultWindowHours * TICKS_PER_HOUR));
      filter := filter.(endAt := Some(now + 5 * TICKS_PER_MINUTE));
    } else if filter.startAt.None? || filter.endAt.None? {
      return MissingTimeRangeBound;
    }
    if filter.startAt.value >= filter.endAt.value {
      return InvalidTimeRangeOrder;
    }
    if (filter.endAt.value - filter.startAt.value) / TICKS_PER_HOUR > c.maxWindowHours {
      return TimeWindowExceeded;
    }
    if filter.pageSize == 0 {
      filter := filter.(pageSize := c.defaultPageLimit);
    } else if filter.pageSize > c.maxPageLimit {
      return PageSizeExceeded;
    }
    v := ValidateFields(filter);
  }
}
