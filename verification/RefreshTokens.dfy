/** Refresh tokens: rotation and reuse detection, one atomic step per transaction
    (src/auth/repository/refresh_token_repository.cpp). */
module RefreshTokens {
  import opened Types

  type Id = nat
  type Session = nat

  datatype Status = Active | Rotated | Revoked | Expired

  datatype Token = Token(session: Session, verifier: seq<byte>, status: Status, expiresAt: int, replacedBy: Option<Id>)

  /** The token table and the sessions marked revoked. `born` and `clock` are history: the order of insertion. */
  datatype Db = Db(tokens: map<Id, Token>, revoked: set<Session>, born: map<Id, nat>, clock: nat)

  const EMPTY := Db(map[], {}, map[], 0)

  datatype Outcome = Done | Duplicate | NotFound | InvalidState

  datatype Op =
    | Create(id: Id, token: Token)
    | Rotate(from: Id, id: Id, token: Token, now: int)
    | Reuse(verifier: seq<byte>)

  /** The primary key and the unique verifier. */
  ghost predicate Taken(db: Db, id: Id, verifier: seq<byte>) {
    id in db.tokens || exists k :: k in db.tokens && db.tokens[k].verifier == verifier
  }

  ghost function Inserted(db: Db, id: Id, token: Token): Db {
    db.(tokens := db.tokens[id := token], born := db.born[id := db.clock], clock := db.clock + 1)
  }

  function MarkRotated(t: Token, next: Id): Token {
    t.(status := Rotated, replacedBy := Some(next))
  }

  /** The row an UPDATE of the active siblings leaves behind. */
  function Swept(t: Token, s: Session): Token {
    if t.session == s && t.status == Active then t.(status := Revoked) else t
  }

  ghost function SweptTable(tokens: map<Id, Token>, s: Session): map<Id, Token> {
    map id | id in tokens :: Swept(tokens[id], s)
  }

  ghost predicate Bearer(db: Db, verifier: seq<byte>, id: Id) {
    id in db.tokens && db.tokens[id].verifier == verifier
  }

  /** A failing transaction is rolled back. */
  ghost function Apply(db: Db, op: Op): (Db, Outcome) {
    match op
    case Create(id, token) =>
      if Taken(db, id, token.verifier) then (db, Duplicate) else (Inserted(db, id, token), Done)
    case Rotate(from, id, token, now) =>
      if from !in db.tokens then (db, NotFound)
      else if db.tokens[from].status != Active || now > db.tokens[from].expiresAt then (db, InvalidState)
      else if Taken(db, id, token.verifier) then (db, Duplicate)
      else
        var next := Inserted(db, id, token);
        (next.(tokens := next.tokens[from := MarkRotated(db.tokens[from], id)]), Done)
    case Reuse(verifier) =>
      if !(exists id :: Bearer(db, verifier, id)) then (db, NotFound)
      else
        var id :| Bearer(db, verifier, id);
        if db.tokens[id].status != Rotated then (db, InvalidState)
        else (db.(tokens := SweptTable(db.tokens, db.tokens[id].session),
                  revoked := db.revoked + {db.tokens[id].session}), Done)
  }

  /** What the token manager passes: tokens enter active and without a replacement, and a rotation
      stays in the session. */
  ghost predicate Proper(db: Db, op: Op) {
    match op
    case Create(_, token) => token.status == Active && token.replacedBy == None
    case Rotate(from, _, token, _) =>
      token.status == Active && token.replacedBy == None &&
        (from in db.tokens ==> token.session == db.tokens[from].session)
    case Reuse(_) => true
  }

  ghost function After(db: Db, ops: seq<Op>): Db {
    if ops == [] then db else Apply(After(db, ops[..|ops| - 1]), ops[|ops| - 1]).0
  }

  ghost predicate ProperRun(ops: seq<Op>) {
    ops == [] || (ProperRun(ops[..|ops| - 1]) && Proper(After(EMPTY, ops[..|ops| - 1]), ops[|ops| - 1]))
  }

  // ---- What one transaction does, written out ---------------------------------------------------

  ghost predicate MayRotate(tokens: map<Id, Token>, from: Id, now: int) {
    from in tokens && tokens[from].status == Active && now <= tokens[from].expiresAt
  }

  ghost predicate Unused(tokens: map<Id, Token>, id: Id, verifier: seq<byte>) {
    id !in tokens && forall k :: k in tokens ==> tokens[k].verifier != verifier
  }

  /** One row more, every other row as it was. */
  ghost predicate OnlyInserted(before: map<Id, Token>, after: map<Id, Token>, id: Id, token: Token) {
    && after.Keys == before.Keys + {id} && after[id] == token
    && forall k :: k in before ==> k != id && after[k] == before[k]
  }

  /** One row more and `from` rotated to it, every other row as it was. */
  ghost predicate OnlyRotated(before: map<Id, Token>, after: map<Id, Token>, from: Id, id: Id, token: Token) {
    && after.Keys == before.Keys + {id} && after[id] == token && from in before
    && var old0 := before[from];
    && after[from] == Token(old0.session, old0.verifier, Rotated, old0.expiresAt, Some(id))
    && forall k :: k in before && k != from ==> k != id && after[k] == before[k]
  }

  /** The active rows of one session revoked, every other row as it was. */
  ghost predicate OnlySessionRevoked(before: map<Id, Token>, after: map<Id, Token>, s: Session) {
    && after.Keys == before.Keys
    && forall k :: k in before ==>
         var t := before[k];
         after[k] == if t.session == s && t.status == Active
                     then Token(s, t.verifier, Revoked, t.expiresAt, t.replacedBy) else t
  }

  /** A create succeeds exactly when id and verifier are unused, and then only inserts. */
  lemma CreateExactly(db: Db, id: Id, token: Token)
    ensures var (next, r) := Apply(db, Create(id, token));
            && (r == Done <==> Unused(db.tokens, id, token.verifier)) && (r == Done || r == Duplicate)
            && (r == Done ==> OnlyInserted(db.tokens, next.tokens, id, token) && next.revoked == db.revoked)
            && (r != Done ==> next == db)
  {
  }

  /** A rotation succeeds exactly when the old token is there, active and not past its expiry and the new
      one's id and verifier are unused; each refusal has its own condition and changes nothing. */
  lemma RotateExactly(db: Db, from: Id, id: Id, token: Token, now: int)
    ensures var (next, r) := Apply(db, Rotate(from, id, token, now));
            && (r == Done <==> MayRotate(db.tokens, from, now) && Unused(db.tokens, id, token.verifier))
            && (r == NotFound <==> from !in db.tokens)
            && (r == InvalidState <==> from in db.tokens && !MayRotate(db.tokens, from, now))
            && (r == Duplicate <==> MayRotate(db.tokens, from, now) && !Unused(db.tokens, id, token.verifier))
            && (r == Done ==> OnlyRotated(db.tokens, next.tokens, from, id, token) && next.revoked == db.revoked)
            && (r != Done ==> next == db)
  {
  }

  /** Presenting a verifier revokes a session exactly when its token was rotated away. */
  lemma ReuseExactly(db: Db, verifier: seq<byte>)
    requires UniqueVerifiers(db.tokens)
    ensures var (next, r) := Apply(db, Reuse(verifier));
            && (r == NotFound <==> forall k :: !Bearer(db, verifier, k))
            && (r == Done <==> exists k :: Bearer(db, verifier, k) && db.tokens[k].status == Rotated)
            && (r == InvalidState <==> exists k :: Bearer(db, verifier, k) && db.tokens[k].status != Rotated)
            && (r != Done ==> next == db)
            && (r == Done ==> exists k :: Bearer(db, verifier, k) && next.revoked == db.revoked + {db.tokens[k].session}
                                          && OnlySessionRevoked(db.tokens, next.tokens, db.tokens[k].session))
  {
    if k :| Bearer(db, verifier, k) {
      UniqueBearer(db, verifier, k);
    }
  }

  // ---- Statuses only leave Active --------------------------------------------------------------

  lemma StepKeepsSettled(db: Db, op: Op, id: Id)
    requires id in db.tokens
    ensures var next := Apply(db, op).0;
            && id in next.tokens && next.tokens[id].session == db.tokens[id].session
            && (db.tokens[id].status != Active ==> next.tokens[id] == db.tokens[id])
  {
  }

  /** A token that is no longer active never changes again, and no token disappears or changes session. */
  lemma {:induction false} SettledForever(ops: seq<Op>, i: nat, id: Id)
    requires i <= |ops| && id in After(EMPTY, ops[..i]).tokens
    ensures var then0, now0 := After(EMPTY, ops[..i]), After(EMPTY, ops);
            && id in now0.tokens && now0.tokens[id].session == then0.tokens[id].session
            && (then0.tokens[id].status != Active ==> now0.tokens[id] == then0.tokens[id])
    decreases |ops|
  {
    if i == |ops| {
      assert ops[..i] == ops;
    } else {
      var p := ops[..|ops| - 1];
      assert p[..i] == ops[..i];
      SettledForever(p, i, id);
      StepKeepsSettled(After(EMPTY, p), ops[|ops| - 1], id);
    }
  }

  // ---- Replacement links -----------------------------------------------------------------------

  ghost predicate Link(db: Db, a: Id, b: Id) {
    a in db.tokens && db.tokens[a].replacedBy == Some(b)
  }

  /** Links go from rotated tokens to existing, later ones, and no two lead to the same token. */
  ghost predicate LinksOk(db: Db) {
    && db.born.Keys == db.tokens.Keys
    && (forall id :: id in db.born ==> db.born[id] < db.clock)
    && (forall id :: id in db.tokens ==> (db.tokens[id].replacedBy.Some? <==> db.tokens[id].status == Rotated))
    && (forall a, b :: Link(db, a, b) ==> b in db.tokens && db.born[a] < db.born[b])
    && (forall a, b, c :: Link(db, a, c) && Link(db, b, c) ==> a == b)
  }

  lemma InsertKeepsLinks(db: Db, id: Id, token: Token)
    requires LinksOk(db) && id !in db.tokens && token.status == Active && token.replacedBy == None
    ensures LinksOk(Inserted(db, id, token))
  {
    var n := Inserted(db, id, token);
    forall a, b | Link(n, a, b) ensures Link(db, a, b) {
    }
  }

  lemma RotateKeepsLinks(db: Db, from: Id, id: Id, token: Token)
    requires LinksOk(db) && from in db.tokens && db.tokens[from].status == Active
    requires id !in db.tokens && token.status == Active && token.replacedBy == None
    ensures var n := Inserted(db, id, token);
            LinksOk(n.(tokens := n.tokens[from := MarkRotated(db.tokens[from], id)]))
  {
    InsertKeepsLinks(db, id, token);
    var n := Inserted(db, id, token);
    var m := n.(tokens := n.tokens[from := MarkRotated(db.tokens[from], id)]);
    forall a, b | Link(m, a, b) ensures (a == from && b == id) || (a != from && Link(db, a, b)) {
    }
  }

  lemma SweepKeepsLinks(db: Db, s: Session)
    requires LinksOk(db)
    ensures LinksOk(db.(tokens := SweptTable(db.tokens, s), revoked := db.revoked + {s}))
  {
    var m := db.(tokens := SweptTable(db.tokens, s), revoked := db.revoked + {s});
    forall a, b | Link(m, a, b) ensures Link(db, a, b) {
    }
  }

  lemma {:induction false} LinksInEveryRun(ops: seq<Op>)
    requires ProperRun(ops)
    ensures LinksOk(After(EMPTY, ops))
  {
    if ops != [] {
      var p, op := ops[..|ops| - 1], ops[|ops| - 1];
      LinksInEveryRun(p);
      StepKeepsLinks(After(EMPTY, p), op);
    }
  }

  lemma StepKeepsLinks(db: Db, op: Op)
    requires LinksOk(db) && Proper(db, op)
    ensures LinksOk(Apply(db, op).0)
  {
    hide LinksOk;
    match op
    case Create(id, token) =>
      if !Taken(db, id, token.verifier) {
        InsertKeepsLinks(db, id, token);
      }
    case Rotate(from, id, token, now) =>
      if Apply(db, op).1 == Done {
        RotateKeepsLinks(db, from, id, token);
      }
    case Reuse(verifier) =>
      if Apply(db, op).1 == Done {
        var id :| Bearer(db, verifier, id) &&
                  Apply(db, op).0 == db.(tokens := SweptTable(db.tokens, db.tokens[id].session),
                                         revoked := db.revoked + {db.tokens[id].session});
        SweepKeepsLinks(db, db.tokens[id].session);
      }
  }

  ghost predicate Chain(db: Db, path: seq<Id>) {
    forall i :: 0 < i < |path| ==> Link(db, path[i - 1], path[i])
  }

  lemma {:induction false} ChainRises(db: Db, path: seq<Id>)
    requires LinksOk(db) && Chain(db, path) && |path| >= 2
    ensures path[0] in db.born && path[|path| - 1] in db.born && db.born[path[0]] < db.born[path[|path| - 1]]
  {
    var n := |path| - 1;
    assert Link(db, path[n - 1], path[n]);
    if n > 1 {
      ChainRises(db, path[..n]);
    }
  }

  /** In every run the replacement links form chains: no token is reached from itself, and none from two. */
  lemma ReplacementsFormChains(ops: seq<Op>, path: seq<Id>, a: Id, b: Id, c: Id)
    requires ProperRun(ops)
    ensures |path| >= 2 && Chain(After(EMPTY, ops), path) ==> path[0] != path[|path| - 1]
    ensures Link(After(EMPTY, ops), a, c) && Link(After(EMPTY, ops), b, c) ==> a == b
    ensures Link(After(EMPTY, ops), a, c) ==>
            c in After(EMPTY, ops).tokens && After(EMPTY, ops).tokens[a].status == Rotated
  {
    LinksInEveryRun(ops);
    if |path| >= 2 && Chain(After(EMPTY, ops), path) {
      ChainRises(After(EMPTY, ops), path);
    }
  }

  // ---- One active token per session ------------------------------------------------------------

  ghost predicate ActiveIn(db: Db, s: Session, id: Id) {
    id in db.tokens && db.tokens[id].session == s && db.tokens[id].status == Active
  }

  ghost predicate NoneActive(db: Db, s: Session) {
    forall id :: !ActiveIn(db, s, id)
  }

  ghost predicate AtMostOneActive(db: Db, s: Session) {
    forall a, b :: ActiveIn(db, s, a) && ActiveIn(db, s, b) ==> a == b
  }

  ghost predicate Starts(op: Op, s: Session) {
    op.Create? && op.token.session == s
  }

  /** The step creates a token into the session, and is not refused. */
  ghost predicate Founds(db: Db, op: Op, s: Session) {
    Starts(op, s) && Apply(db, op).1 == Done
  }

  /** How often a token was created, not rotated, into the session. */
  ghost function StartsIn(ops: seq<Op>, s: Session): nat {
    if ops == [] then 0
    else
      var p, op := ops[..|ops| - 1], ops[|ops| - 1];
      StartsIn(p, s) + if Founds(After(EMPTY, p), op, s) then 1 else 0
  }

  lemma StepActive(db: Db, op: Op, s: Session, id: Id)
    requires Proper(db, op) && !Founds(db, op, s) && ActiveIn(Apply(db, op).0, s, id)
    ensures ActiveIn(db, s, id) ||
            (op.Rotate? && op.id == id && ActiveIn(db, s, op.from) && !ActiveIn(Apply(db, op).0, s, op.from))
  {
  }

  lemma StepKeepsOne(db: Db, op: Op, s: Session)
    requires Proper(db, op) && !Founds(db, op, s)
    ensures AtMostOneActive(db, s) ==> AtMostOneActive(Apply(db, op).0, s)
    ensures NoneActive(db, s) ==> NoneActive(Apply(db, op).0, s)
  {
    var next := Apply(db, op).0;
    if AtMostOneActive(db, s) {
      forall a, b | ActiveIn(next, s, a) && ActiveIn(next, s, b) ensures a == b {
        StepActive(db, op, s, a);
        StepActive(db, op, s, b);
      }
    }
    if NoneActive(db, s) {
      forall a ensures !ActiveIn(next, s, a) {
        if ActiveIn(next, s, a) {
          StepActive(db, op, s, a);
        }
      }
    }
  }

  lemma StartFromNone(db: Db, op: Op, s: Session)
    requires Starts(op, s) && NoneActive(db, s)
    ensures AtMostOneActive(Apply(db, op).0, s)
  {
    forall a | ActiveIn(Apply(db, op).0, s, a) ensures a == op.id {
      assert !ActiveIn(db, s, a);
    }
  }

  lemma {:induction false} NoStartNoActive(ops: seq<Op>, s: Session)
    requires ProperRun(ops) && StartsIn(ops, s) == 0
    ensures NoneActive(After(EMPTY, ops), s)
  {
    if ops != [] {
      var p := ops[..|ops| - 1];
      NoStartNoActive(p, s);
      StepKeepsOne(After(EMPTY, p), ops[|ops| - 1], s);
    }
  }

  /** A session started with one token never has two active ones. */
  lemma {:induction false} OneActivePerSession(ops: seq<Op>, s: Session)
    requires ProperRun(ops) && StartsIn(ops, s) <= 1
    ensures AtMostOneActive(After(EMPTY, ops), s)
  {
    if ops != [] {
      var p, op := ops[..|ops| - 1], ops[|ops| - 1];
      if Founds(After(EMPTY, p), op, s) {
        NoStartNoActive(p, s);
        StartFromNone(After(EMPTY, p), op, s);
      } else {
        OneActivePerSession(p, s);
        StepKeepsOne(After(EMPTY, p), op, s);
      }
    }
  }

  // ---- After a detected reuse ------------------------------------------------------------------

  /** The step found a rotated token of the session presented again. */
  ghost predicate DetectsReuse(db: Db, op: Op, s: Session) {
    && op.Reuse? && Apply(db, op).1 == Done && Apply(db, op).0.revoked == db.revoked + {s}
    && OnlySessionRevoked(db.tokens, Apply(db, op).0.tokens, s)
  }

  lemma ReuseClears(db: Db, op: Op, s: Session)
    requires DetectsReuse(db, op, s)
    ensures NoneActive(Apply(db, op).0, s)
  {
  }

  ghost predicate UniqueVerifiers(tokens: map<Id, Token>) {
    forall a, b :: a in tokens && b in tokens && tokens[a].verifier == tokens[b].verifier ==> a == b
  }

  lemma UniqueBearer(db: Db, verifier: seq<byte>, id: Id)
    requires UniqueVerifiers(db.tokens) && Bearer(db, verifier, id)
    ensures Apply(db, Reuse(verifier)) ==
            if db.tokens[id].status != Rotated then (db, InvalidState)
            else (db.(tokens := SweptTable(db.tokens, db.tokens[id].session),
                      revoked := db.revoked + {db.tokens[id].session}), Done)
  {
  }

  lemma StepKeepsUnique(db: Db, op: Op)
    requires UniqueVerifiers(db.tokens)
    ensures UniqueVerifiers(Apply(db, op).0.tokens)
  {
  }

  lemma {:induction false} UniqueInEveryRun(ops: seq<Op>)
    ensures UniqueVerifiers(After(EMPTY, ops).tokens)
  {
    if ops != [] {
      var p, op := ops[..|ops| - 1], ops[|ops| - 1];
      UniqueInEveryRun(p);
      StepKeepsUnique(After(EMPTY, p), op);
    }
  }

  lemma VerifierStays(db: Db, op: Op, id: Id)
    requires id in db.tokens
    ensures var next := Apply(db, op).0;
            id in next.tokens && next.tokens[id].verifier == db.tokens[id].verifier
  {
  }

  /** Step `i` rotated the token of this verifier away. */
  ghost predicate RotatedAt(ops: seq<Op>, i: nat, verifier: seq<byte>) {
    && i < |ops| && ops[i].Rotate?
    && var db := After(EMPTY, ops[..i]);
    && Apply(db, ops[i]).1 == Done && db.tokens[ops[i].from].verifier == verifier
  }

  lemma StepRotates(db: Db, op: Op, id: Id)
    requires Proper(db, op) && id in Apply(db, op).0.tokens && Apply(db, op).0.tokens[id].status == Rotated
    ensures id in db.tokens
    ensures db.tokens[id].status == Rotated || (op.Rotate? && op.from == id && Apply(db, op).1 == Done)
  {
  }

  /** A rotated token was rotated by some step of the run. */
  lemma {:induction false} RotatedBySomeStep(ops: seq<Op>, id: Id) returns (i: nat)
    requires ProperRun(ops) && id in After(EMPTY, ops).tokens && After(EMPTY, ops).tokens[id].status == Rotated
    ensures RotatedAt(ops, i, After(EMPTY, ops).tokens[id].verifier)
  {
    var last := |ops| - 1;
    var p, op := ops[..last], ops[last];
    StepRotates(After(EMPTY, p), op, id);
    VerifierStays(After(EMPTY, p), op, id);
    if After(EMPTY, p).tokens[id].status == Rotated {
      i := RotatedBySomeStep(p, id);
      assert p[..i] == ops[..i] && p[i] == ops[i];
    } else {
      i := last;
    }
  }

  lemma {:induction false} RotatedStaysRotated(ops: seq<Op>, i: nat, verifier: seq<byte>)
    requires RotatedAt(ops, i, verifier)
    ensures Bearer(After(EMPTY, ops), verifier, ops[i].from) && After(EMPTY, ops).tokens[ops[i].from].status == Rotated
    ensures After(EMPTY, ops).tokens[ops[i].from].session == After(EMPTY, ops[..i]).tokens[ops[i].from].session
    decreases |ops|
  {
    var last := |ops| - 1;
    var p, op := ops[..last], ops[last];
    if i == last {
      assert ops[..i] == p;
    } else {
      assert p[..i] == ops[..i] && p[i] == ops[i];
      RotatedStaysRotated(p, i, verifier);
      StepKeepsSettled(After(EMPTY, p), op, ops[i].from);
    }
  }

  /** In every run a presented verifier is reported as reused exactly when some earlier step rotated its
      token away, however much happened since. */
  lemma ReuseDetectedExactly(ops: seq<Op>, verifier: seq<byte>)
    requires ProperRun(ops)
    ensures Apply(After(EMPTY, ops), Reuse(verifier)).1 == Done <==> exists i: nat :: RotatedAt(ops, i, verifier)
  {
    var db := After(EMPTY, ops);
    UniqueInEveryRun(ops);
    if i: nat :| RotatedAt(ops, i, verifier) {
      RotatedStaysRotated(ops, i, verifier);
      UniqueBearer(db, verifier, ops[i].from);
    }
    if Apply(db, Reuse(verifier)).1 == Done {
      var id :| Bearer(db, verifier, id);
      UniqueBearer(db, verifier, id);
      var i := RotatedBySomeStep(ops, id);
    }
  }

  /** The session that is revoked is the one of the token that was rotated away. */
  lemma ReuseIsDetected(ops: seq<Op>, i: nat, verifier: seq<byte>)
    requires ProperRun(ops) && RotatedAt(ops, i, verifier)
    ensures DetectsReuse(After(EMPTY, ops), Reuse(verifier), After(EMPTY, ops[..i]).tokens[ops[i].from].session)
  {
    UniqueInEveryRun(ops);
    RotatedStaysRotated(ops, i, verifier);
    UniqueBearer(After(EMPTY, ops), verifier, ops[i].from);
  }

  ghost predicate FoundedAt(ops: seq<Op>, j: nat, s: Session) {
    j < |ops| && Founds(After(EMPTY, ops[..j]), ops[j], s)
  }

  /** After that no token of the session is active while none is created into it anew. */
  lemma {:induction false} ReuseEndsTheSession(ops: seq<Op>, i: nat, s: Session)
    requires ProperRun(ops) && i < |ops| && DetectsReuse(After(EMPTY, ops[..i]), ops[i], s)
    requires forall j :: i < j < |ops| ==> !FoundedAt(ops, j, s)
    ensures NoneActive(After(EMPTY, ops), s)
    decreases |ops|
  {
    var p, op := ops[..|ops| - 1], ops[|ops| - 1];
    if i == |ops| - 1 {
      assert ops[..i] == p;
      ReuseClears(After(EMPTY, p), op, s);
    } else {
      assert p[..i] == ops[..i] && p[i] == ops[i];
      forall j | i < j < |p| ensures !FoundedAt(p, j, s) {
        assert p[..j] == ops[..j] && p[j] == ops[j] && !FoundedAt(ops, j, s);
      }
      ReuseEndsTheSession(p, i, s);
      assert !FoundedAt(ops, |ops| - 1, s);
      StepKeepsOne(After(EMPTY, p), op, s);
    }
  }

  ghost predicate ActiveAt(ops: seq<Op>, j: nat, s: Session) {
    j <= |ops| && !NoneActive(After(EMPTY, ops[..j]), s)
  }

  lemma {:induction false} PrefixIsProper(ops: seq<Op>, j: nat)
    requires ProperRun(ops) && j <= |ops|
    ensures ProperRun(ops[..j])
    decreases |ops|
  {
    if j == |ops| {
      assert ops[..j] == ops;
    } else {
      PrefixIsProper(ops[..|ops| - 1], j);
      assert ops[..|ops| - 1][..j] == ops[..j];
    }
  }

  lemma FoundingActivates(ops: seq<Op>, j: nat, s: Session)
    requires ProperRun(ops) && FoundedAt(ops, j, s)
    ensures ActiveAt(ops, j + 1, s)
  {
    PrefixIsProper(ops, j + 1);
    assert ops[..j + 1][..j] == ops[..j];
    assert ActiveIn(After(EMPTY, ops[..j + 1]), s, ops[j].id);
  }

  lemma UnfoundedStaysInactive(ops: seq<Op>, i: nat, j: nat, s: Session)
    requires ProperRun(ops) && i < j <= |ops| && DetectsReuse(After(EMPTY, ops[..i]), ops[i], s)
    requires forall k :: i < k < |ops| ==> !FoundedAt(ops, k, s)
    ensures !ActiveAt(ops, j, s)
  {
    hide ProperRun, DetectsReuse, Founds, NoneActive, After;
    var p := ops[..j];
    PrefixIsProper(ops, j);
    assert p[..i] == ops[..i] && p[i] == ops[i];
    forall k | i < k < |p| ensures !FoundedAt(p, k, s) {
      assert p[..k] == ops[..k] && p[k] == ops[k] && !FoundedAt(ops, k, s);
    }
    ReuseEndsTheSession(p, i, s);
  }

  /** Exactly: after a detected reuse the session has an active token at some later point if and only if a
      create into it succeeded in between. */
  lemma ReuseEndsTheSessionExactly(ops: seq<Op>, i: nat, s: Session)
    requires ProperRun(ops) && i < |ops| && DetectsReuse(After(EMPTY, ops[..i]), ops[i], s)
    ensures (exists j :: i < j && ActiveAt(ops, j, s)) <==> (exists j :: i < j && FoundedAt(ops, j, s))
  {
    hide ProperRun, DetectsReuse, FoundedAt, NoneActive, After;
    if j :| i < j && FoundedAt(ops, j, s) {
      FoundingActivates(ops, j, s);
    } else {
      forall j | i < j && ActiveAt(ops, j, s) ensures false {
        UnfoundedStaysInactive(ops, i, j, s);
      }
    }
  }

  lemma AfterSnoc(ops: seq<Op>, op: Op)
    ensures After(EMPTY, ops + [op]) == Apply(After(EMPTY, ops), op).0
    ensures ProperRun(ops + [op]) <==> ProperRun(ops) && Proper(After(EMPTY, ops), op)
  {
    assert (ops + [op])[..|ops|] == ops;
  }

  function Fresh(s: Session, verifier: seq<byte>, expiry: int): Token {
    Token(s, verifier, Active, expiry, None)
  }

  /** A session's first token, rotated once. */
  function Opening(s: Session, u: seq<byte>, v: seq<byte>, expiry: int): seq<Op> {
    [Create(0, Fresh(s, u, expiry))] + [Rotate(0, 1, Fresh(s, v, expiry), expiry)]
  }

  lemma AfterOpening(s: Session, u: seq<byte>, v: seq<byte>, expiry: int)
    requires u != v
    ensures var ops := Opening(s, u, v, expiry);
            && ProperRun(ops) && RotatedAt(ops, 1, u) && After(EMPTY, ops[..1]).tokens == map[0 := Fresh(s, u, expiry)]
            && After(EMPTY, ops).tokens == map[0 := MarkRotated(Fresh(s, u, expiry), 1), 1 := Fresh(s, v, expiry)]
  {
    var create, rotate := Create(0, Fresh(s, u, expiry)), Rotate(0, 1, Fresh(s, v, expiry), expiry);
    assert [] + [create] == [create];
    AfterSnoc([], create);
    AfterSnoc([create], rotate);
    var ops := Opening(s, u, v, expiry);
    assert ops[..1] == [create];
    assert After(EMPTY, [create]).tokens == map[0 := Fresh(s, u, expiry)];
  }

  lemma CreateAfterSweep(db: Db, s: Session, u: seq<byte>, v: seq<byte>, w: seq<byte>, expiry: int)
    requires u != w && v != w
    requires db.tokens == SweptTable(map[0 := MarkRotated(Fresh(s, u, expiry), 1), 1 := Fresh(s, v, expiry)], s)
    ensures var next := Apply(db, Create(2, Fresh(s, w, expiry))).0;
            ActiveIn(next, s, 2) && next.revoked == db.revoked
  {
  }

  /** A create after the reuse does make the session active again: the repository looks at no session
      status, and the session stays marked as revoked. */
  lemma RevokedSessionReopens(s: Session, u: seq<byte>, v: seq<byte>, w: seq<byte>, expiry: int)
    requires u != v && u != w && v != w
    ensures var before := Opening(s, u, v, expiry);
            var ops := before + [Reuse(u)] + [Create(2, Fresh(s, w, expiry))];
            && ProperRun(ops) && DetectsReuse(After(EMPTY, before), Reuse(u), s)
            && NoneActive(After(EMPTY, before + [Reuse(u)]), s)
            && ActiveIn(After(EMPTY, ops), s, 2) && s in After(EMPTY, ops).revoked
  {
    var before := Opening(s, u, v, expiry);
    var db := After(EMPTY, before);
    AfterOpening(s, u, v, expiry);
    assert before[1].from == 0;
    AfterSnoc(before, Reuse(u));
    AfterSnoc(before + [Reuse(u)], Create(2, Fresh(s, w, expiry)));
    hide After, ProperRun, RotatedAt, Opening, Apply;
    ReuseIsDetected(before, 1, u);
    ReuseClears(db, Reuse(u), s);
    CreateAfterSweep(Apply(db, Reuse(u)).0, s, u, v, w, expiry);
  }

  // ---- The repository --------------------------------------------------------------------------

  /** The tables; each method is one transaction. */
  class RefreshTokenRepository {
    var tokens: map<Id, Token>
    var revoked: set<Session>
    ghost var born: map<Id, nat>
    ghost var clock: nat

    ghost function State(): Db
      reads this
    {
      Db(tokens, revoked, born, clock)
    }

    ghost predicate Valid()
      reads this
    {
      UniqueVerifiers(tokens)
    }

    constructor ()
      ensures Valid() && State() == EMPTY
    {
      tokens, revoked, born, clock := map[], {}, map[], 0;
    }

    method CreateToken(id: Id, token: Token) returns (r: Outcome)
      requires Valid()
      modifies this
      ensures Valid() && (State(), r) == Apply(old(State()), Create(id, token))
      ensures r == Done <==> Unused(old(tokens), id, token.verifier)
      ensures r == Done ==> OnlyInserted(old(tokens), tokens, id, token) && revoked == old(revoked)
      ensures r != Done ==> r == Duplicate && tokens == old(tokens) && revoked == old(revoked)
    {
      CreateExactly(State(), id, token);
      if id in tokens || token.verifier in (set k | k in tokens :: tokens[k].verifier) {
        return Duplicate;
      }
      tokens := tokens[id := token];
      born, clock := born[id := clock], clock + 1;
      return Done;
    }

    method RotateTokenAtomic(from: Id, id: Id, token: Token, now: int) returns (r: Outcome)
      requires Valid()
      modifies this
      ensures Valid() && (State(), r) == Apply(old(State()), Rotate(from, id, token, now))
      ensures r == Done <==> MayRotate(old(tokens), from, now) && Unused(old(tokens), id, token.verifier)
      ensures r == NotFound <==> from !in old(tokens)
      ensures r == InvalidState <==> from in old(tokens) && !MayRotate(old(tokens), from, now)
      ensures r == Done ==> OnlyRotated(old(tokens), tokens, from, id, token) && revoked == old(revoked)
      ensures r != Done ==> tokens == old(tokens) && revoked == old(revoked)
    {
      RotateExactly(State(), from, id, token, now);
      if from !in tokens {
        return NotFound;
      }
      var current := tokens[from];
      if current.status != Active {
        return InvalidState;
      }
      if now > current.expiresAt {
        return InvalidState;
      }
      r := CreateToken(id, token);
      if r == Done {
        tokens := tokens[from := MarkRotated(current, id)];
      }
    }

    method HandleTokenReuse(verifier: seq<byte>) returns (r: Outcome)
      requires Valid()
      modifies this
      ensures Valid() && (State(), r) == Apply(old(State()), Reuse(verifier))
      ensures r == NotFound <==> forall k :: !Bearer(old(State()), verifier, k)
      ensures r == Done <==> exists k :: Bearer(old(State()), verifier, k) && old(tokens)[k].status == Rotated
      ensures r == Done ==>
                exists k :: Bearer(old(State()), verifier, k) && revoked == old(revoked) + {old(tokens)[k].session}
                            && OnlySessionRevoked(old(tokens), tokens, old(tokens)[k].session)
      ensures r != Done ==> tokens == old(tokens) && revoked == old(revoked)
    {
      ReuseExactly(State(), verifier);
      var found := set k | k in tokens && tokens[k].verifier == verifier;
      if found == {} {
        assert forall k :: Bearer(State(), verifier, k) ==> k in found;
        return NotFound;
      }
      var id :| id in found;
      UniqueBearer(State(), verifier, id);
      if tokens[id].status != Rotated {
        return InvalidState;
      }
      var s := tokens[id].session;
      revoked := revoked + {s};
      tokens := map k | k in tokens :: Swept(tokens[k], s);
      return Done;
    }
  }
}
