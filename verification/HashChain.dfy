/** The hash chain over the journal: what two accepted journals with the same last hash have in
    common, and that appending keeps a journal accepted. */
module HashChain {
  import opened Journal
  import opened Decimals

  /** `h` is the hex digest; `canon` parses a payload and serializes it again. */
  datatype Env = Env(h: string -> string, canon: string -> Option<string>)

  datatype Row = Row(sequence: int, kind: string, payload: string, previousHash: Option<string>, hash: string)

  function OrEmpty(previous: Option<string>): string {
    if previous.Some? then previous.value else ""
  }

  function Preimage(previous: Option<string>, sequence: int, kind: string, payload: string): string {
    OrEmpty(previous) + "|" + (Decimal(sequence) + "|" + (kind + "|" + payload))
  }

  function EventHash(env: Env, previous: Option<string>, sequence: int, kind: string, payload: string): string {
    env.h(Preimage(previous, sequence, kind, payload))
  }

  /** The hasher is fed field by field. */
  method FeedEventHash(env: Env, previous: Option<string>, sequence: int, kind: string, payload: string)
    returns (hash: string)
    ensures hash == EventHash(env, previous, sequence, kind, payload)
  {
    var fed := OrEmpty(previous);
    fed := fed + "|";
    fed := fed + Decimal(sequence);
    fed := fed + "|";
    fed := fed + kind;
    fed := fed + "|";
    fed := fed + payload;
    assert fed == Preimage(previous, sequence, kind, payload);
    hash := env.h(fed);
  }

  function LastHash(rows: seq<Row>): Option<string> {
    if rows == [] then None else Some(rows[|rows| - 1].hash)
  }

  /** What the verifier demands of a row on top of the rows before it. */
  predicate Links(env: Env, previous: Option<string>, row: Row) {
    && env.canon(row.payload).Some?
    && row.previousHash == previous
    && row.hash == EventHash(env, previous, row.sequence, row.kind, env.canon(row.payload).value)
  }

  ghost predicate Accepted(env: Env, rows: seq<Row>) {
    forall i | 0 <= i < |rows| :: Links(env, LastHash(rows[..i]), rows[i])
  }

  // -------------------------------------------------------------- Verification

  /** The verifier over stored kinds: one pass that carries the previous hash. */
  method VerifyStoredKind(env: Env, rows: seq<Row>) returns (ok: bool)
    ensures ok <==> Accepted(env, rows)
  {
    var previousHash: Option<string> := None;
    for i := 0 to |rows|
      invariant previousHash == LastHash(rows[..i])
      invariant Accepted(env, rows[..i])
    {
      if !Links(env, previousHash, rows[i]) {
        return false;
      }
      previousHash := Some(rows[i].hash);
      AcceptOneMore(env, rows, i);
    }
    assert rows[..|rows|] == rows;
    ok := true;
  }

  lemma ExtendAccepted(env: Env, rows: seq<Row>, row: Row)
    requires Accepted(env, rows) && Links(env, LastHash(rows), row)
    ensures Accepted(env, rows + [row])
  {
    var rows' := rows + [row];
    forall i | 0 <= i < |rows'| ensures Links(env, LastHash(rows'[..i]), rows'[i]) {
      assert rows'[..i] == rows[..i];
      if i == |rows| { assert rows[..i] == rows; }
    }
  }

  lemma AcceptOneMore(env: Env, rows: seq<Row>, i: nat)
    requires i < |rows| && Accepted(env, rows[..i]) && Links(env, LastHash(rows[..i]), rows[i])
    ensures Accepted(env, rows[..i + 1]) && LastHash(rows[..i + 1]) == Some(rows[i].hash)
  {
    ExtendAccepted(env, rows[..i], rows[i]);
    assert rows[..i + 1] == rows[..i] + [rows[i]];
  }

  lemma PrefixAccepted(env: Env, rows: seq<Row>, n: nat)
    requires Accepted(env, rows) && n <= |rows|
    ensures Accepted(env, rows[..n])
  {
    assert forall i | 0 <= i < n :: rows[..n][..i] == rows[..i];
  }

  /** The authoritative verifier reads each kind through the enum and hashes its storage name;
      `reparse` is that round trip, which maps a kind it does not know to something else. */
  function ThroughEnum(rows: seq<Row>, reparse: string -> string): seq<Row> {
    seq(|rows|, i requires 0 <= i < |rows| => rows[i].(kind := reparse(rows[i].kind)))
  }

  /** It also reads a payload that does not parse as an empty object. */
  function Lenient(env: Env): Env {
    env.(canon := (payload: string) => if env.canon(payload).Some? then env.canon(payload) else Some("{}"))
  }

  /** The authoritative verifier. */
  method VerifyHashChain(env: Env, rows: seq<Row>, reparse: string -> string) returns (ok: bool)
    ensures ok <==> Accepted(Lenient(env), ThroughEnum(rows, reparse))
  {
    ok := VerifyStoredKind(Lenient(env), ThroughEnum(rows, reparse));
  }

  lemma ThroughEnumLastHash(rows: seq<Row>, reparse: string -> string, i: nat)
    requires i <= |rows|
    ensures LastHash(ThroughEnum(rows, reparse)[..i]) == LastHash(rows[..i])
  {
  }

  predicate KnownKinds(rows: seq<Row>, reparse: string -> string) {
    forall i | 0 <= i < |rows| :: reparse(rows[i].kind) == rows[i].kind
  }

  predicate Parses(env: Env, rows: seq<Row>) {
    forall i | 0 <= i < |rows| :: env.canon(rows[i].payload).Some?
  }

  /** The two messages that the verifiers hash for one row do not collide. */
  predicate NoClash(env: Env, rows: seq<Row>, reparse: string -> string, i: nat)
    requires i < |rows|
  {
    var strict, lenient := PreimageAt(env, rows, i), PreimageAt(Lenient(env), ThroughEnum(rows, reparse), i);
    env.h(strict) == env.h(lenient) ==> strict == lenient
  }

  lemma RowsAgreeExactly(env: Env, rows: seq<Row>, reparse: string -> string, i: nat)
    requires i < |rows| && NoClash(env, rows, reparse, i) && '|' !in OrEmpty(LastHash(rows[..i]))
    requires '|' !in rows[i].kind && '|' !in reparse(rows[i].kind)
    ensures var seen := ThroughEnum(rows, reparse);
            var strict := Links(env, LastHash(rows[..i]), rows[i]);
            var lenient := Links(Lenient(env), LastHash(seen[..i]), seen[i]);
            && (strict ==> (lenient <==> reparse(rows[i].kind) == rows[i].kind))
            && (lenient ==> (strict <==> reparse(rows[i].kind) == rows[i].kind && env.canon(rows[i].payload).Some?))
  {
    ThroughEnumLastHash(rows, reparse, i);
    var seen, previous, row := ThroughEnum(rows, reparse), LastHash(rows[..i]), rows[i];
    if Links(env, previous, row) && Links(Lenient(env), previous, seen[i]) {
      var payload := env.canon(row.payload).value;
      assert PreimageAt(env, rows, i) == PreimageAt(Lenient(env), seen, i);
      PreimageDecodes(previous, row.sequence, row.kind, payload, previous, row.sequence, reparse(row.kind), payload);
    }
  }

  /** How the two verifiers compare, unless the two messages of a row collide. On a journal that
      the stored-kind verifier accepts, the authoritative one agrees exactly when the enum knows
      every kind. On a journal that the authoritative one accepts, the stored-kind verifier
      agrees exactly when, besides, every payload parses. */
  lemma VerifiersAgreeExactly(env: Env, rows: seq<Row>, reparse: string -> string)
    requires HexDigests(env) && PlainKinds(rows) && PlainKinds(ThroughEnum(rows, reparse))
    requires forall i | 0 <= i < |rows| :: NoClash(env, rows, reparse, i)
    ensures Accepted(env, rows) ==> (Accepted(Lenient(env), ThroughEnum(rows, reparse)) <==> KnownKinds(rows, reparse))
    ensures Accepted(Lenient(env), ThroughEnum(rows, reparse)) ==>
              (Accepted(env, rows) <==> KnownKinds(rows, reparse) && Parses(env, rows))
  {
    var seen := ThroughEnum(rows, reparse);
    if Accepted(env, rows) || Accepted(Lenient(env), seen) {
      forall i | 0 <= i < |rows|
        ensures var strict := Links(env, LastHash(rows[..i]), rows[i]);
                var lenient := Links(Lenient(env), LastHash(seen[..i]), seen[i]);
                && (strict ==> (lenient <==> reparse(rows[i].kind) == rows[i].kind))
                && (lenient ==> (strict <==> reparse(rows[i].kind) == rows[i].kind && env.canon(rows[i].payload).Some?))
      {
        if Accepted(env, rows) { AcceptedHashes(env, rows, i); } else { AcceptedHashes(Lenient(env), seen, i); }
        ThroughEnumLastHash(rows, reparse, i);
        assert rows[i] in rows && seen[i] in seen;
        assert NoClash(env, rows, reparse, i);
        RowsAgreeExactly(env, rows, reparse, i);
      }
    }
  }

  /** The authoritative verifier accepts one row of garbage when its hash is that of an empty
      object; the stored-kind verifier does not. */
  lemma GarbageWitness(env: Env, garbage: string, kind: string)
    requires env.canon(garbage).None?
    ensures var rows := [Row(1, kind, garbage, None, EventHash(env, None, 1, kind, "{}"))];
            Accepted(Lenient(env), ThroughEnum(rows, k => k)) && !Accepted(env, rows)
  {
    var rows := [Row(1, kind, garbage, None, EventHash(env, None, 1, kind, "{}"))];
    var seen := ThroughEnum(rows, k => k);
    assert rows[..0] == [] && seen[..0] == [];
    assert Links(Lenient(env), LastHash(seen[..0]), seen[0]);
    assert !Links(env, LastHash(rows[..0]), rows[0]);
  }

  // ----------------------------------------------------------- Unique decoding

  /** What is hashed for a row: previous hash, number, kind and payload, in this order. */
  lemma PreimageSample()
    ensures Preimage(Some("ab"), 12, "RunFailed", "{}") == "ab|12|RunFailed|{}"
  {
    assert Digits(12) == Digits(1) + "2";
  }

  lemma SplitAtBar(a: string, x: string, b: string, y: string)
    requires a + "|" + x == b + "|" + y && '|' !in a && '|' !in b
    ensures a == b && x == y
  {
    var whole := a + "|" + x;
    assert whole[|a|] == '|' && whole[|b|] == '|';
    assert forall i | 0 <= i < |a| :: whole[i] == a[i] != '|';
    assert forall i | 0 <= i < |b| :: whole[i] == b[i] != '|';
    assert |a| == |b|;
    assert a == whole[..|a|] && b == whole[..|b|];
    assert x == whole[|a| + 1..] && y == whole[|b| + 1..];
  }

  /** The preimage determines the previous hash, the sequence number, the kind and the payload,
      as long as hashes and kinds contain no bar; the payload may. */
  lemma PreimageDecodes(p1: Option<string>, s1: int, k1: string, y1: string, p2: Option<string>, s2: int, k2: string,
                        y2: string)
    requires Preimage(p1, s1, k1, y1) == Preimage(p2, s2, k2, y2)
    requires '|' !in OrEmpty(p1) && '|' !in OrEmpty(p2) && '|' !in k1 && '|' !in k2
    ensures OrEmpty(p1) == OrEmpty(p2) && s1 == s2 && k1 == k2 && y1 == y2
  {
    SplitAtBar(OrEmpty(p1), Decimal(s1) + "|" + (k1 + "|" + y1), OrEmpty(p2), Decimal(s2) + "|" + (k2 + "|" + y2));
    NoBar(s1);
    NoBar(s2);
    SplitAtBar(Decimal(s1), k1 + "|" + y1, Decimal(s2), k2 + "|" + y2);
    DecimalInjective(s1, s2);
    SplitAtBar(k1, y1, k2, y2);
  }

  // -------------------------------------------------------------- Tamper evidence

  predicate Hex(text: string) {
    |text| == 64 && forall c <- text :: '0' <= c <= '9' || 'a' <= c <= 'f'
  }

  ghost predicate HexDigests(env: Env) {
    forall x :: Hex(env.h(x))
  }

  /** The two rows agree in every column, apart from how their payload is spelled. */
  predicate SameFact(env: Env, a: Row, b: Row) {
    && a.sequence == b.sequence && a.kind == b.kind && env.canon(a.payload) == env.canon(b.payload)
    && a.previousHash == b.previousHash && a.hash == b.hash
  }

  function PreimageAt(env: Env, rows: seq<Row>, i: nat): string
    requires i < |rows|
  {
    var canonical := env.canon(rows[i].payload);
    Preimage(LastHash(rows[..i]), rows[i].sequence, rows[i].kind, if canonical.Some? then canonical.value else "")
  }

  /** No preimage of one journal collides with a different preimage of the other. */
  ghost predicate NoCollision(env: Env, a: seq<Row>, b: seq<Row>) {
    forall i, j | 0 <= i < |a| && 0 <= j < |b| && env.h(PreimageAt(env, a, i)) == env.h(PreimageAt(env, b, j)) ::
      PreimageAt(env, a, i) == PreimageAt(env, b, j)
  }

  predicate PlainKinds(rows: seq<Row>) {
    forall row <- rows :: '|' !in row.kind
  }

  lemma AcceptedHashes(env: Env, rows: seq<Row>, i: nat)
    requires Accepted(env, rows) && i <= |rows| && HexDigests(env)
    ensures '|' !in OrEmpty(LastHash(rows[..i])) && (i > 0 ==> OrEmpty(LastHash(rows[..i])) != "")
    ensures i < |rows| ==> rows[i].hash == env.h(PreimageAt(env, rows, i))
  {
  }

  lemma LastRowsAgree(env: Env, a: seq<Row>, b: seq<Row>)
    requires Accepted(env, a) && Accepted(env, b) && LastHash(a) == LastHash(b) && a != []
    requires PlainKinds(a) && PlainKinds(b) && NoCollision(env, a, b) && HexDigests(env)
    ensures b != [] && SameFact(env, a[|a| - 1], b[|b| - 1])
    ensures LastHash(a[..|a| - 1]) == LastHash(b[..|b| - 1])
  {
    var m, n := |a| - 1, |b| - 1;
    AcceptedHashes(env, a, m);
    AcceptedHashes(env, b, n);
    assert PreimageAt(env, a, m) == PreimageAt(env, b, n);
    assert Links(env, LastHash(a[..m]), a[m]) && Links(env, LastHash(b[..n]), b[n]);
    assert a[m] in a && b[n] in b;
    PreimageDecodes(LastHash(a[..m]), a[m].sequence, a[m].kind, env.canon(a[m].payload).value,
                    LastHash(b[..n]), b[n].sequence, b[n].kind, env.canon(b[n].payload).value);
  }

  /** The last hash pins the whole journal: two accepted journals that end in the same hash have
      the same length and agree on every column of every row, payloads in canonical form, unless
      two of their own preimages collide. */
  lemma {:induction false} LastHashPinsJournal(env: Env, a: seq<Row>, b: seq<Row>)
    requires Accepted(env, a) && Accepted(env, b) && LastHash(a) == LastHash(b)
    requires PlainKinds(a) && PlainKinds(b) && NoCollision(env, a, b) && HexDigests(env)
    ensures |a| == |b| && forall i | 0 <= i < |a| :: SameFact(env, a[i], b[i])
  {
    if a != [] {
      var m, n := |a| - 1, |b| - 1;
      LastRowsAgree(env, a, b);
      PrefixComparable(env, a, b, m, n);
      LastHashPinsJournal(env, a[..m], b[..n]);
      Glue(env, a, b, m);
    }
  }

  lemma Glue(env: Env, a: seq<Row>, b: seq<Row>, m: nat)
    requires |a| == |b| == m + 1 && SameFact(env, a[m], b[m])
    requires forall i | 0 <= i < m :: SameFact(env, a[..m][i], b[..m][i])
    ensures forall i | 0 <= i < |a| :: SameFact(env, a[i], b[i])
  {
    forall i | 0 <= i < |a| ensures SameFact(env, a[i], b[i]) {
      if i < m { assert a[..m][i] == a[i] && b[..m][i] == b[i]; }
    }
  }

  /** So a journal that keeps the last hash and has rows altered, added or removed is refused. */
  lemma AlteredJournalIsRefused(env: Env, rows: seq<Row>, altered: seq<Row>)
    requires Accepted(env, rows) && LastHash(altered) == LastHash(rows)
    requires |altered| == |rows| ==> exists i | 0 <= i < |rows| :: !SameFact(env, rows[i], altered[i])
    requires PlainKinds(rows) && PlainKinds(altered) && NoCollision(env, rows, altered) && HexDigests(env)
    ensures !Accepted(env, altered)
  {
    if Accepted(env, altered) { LastHashPinsJournal(env, rows, altered); }
  }

  /** An altered link or hash is found out whatever the hash function. */
  lemma AlteredLinkIsRefused(env: Env, rows: seq<Row>, i: nat, previous: Option<string>, hash: string)
    requires Accepted(env, rows) && i < |rows| && (previous != rows[i].previousHash || hash != rows[i].hash)
    ensures !Accepted(env, rows[i := rows[i].(previousHash := previous, hash := hash)])
  {
    var altered := rows[i := rows[i].(previousHash := previous, hash := hash)];
    assert altered[..i] == rows[..i];
    assert Links(env, LastHash(rows[..i]), rows[i]);
    assert !Links(env, LastHash(altered[..i]), altered[i]);
  }

  lemma PrefixComparable(env: Env, a: seq<Row>, b: seq<Row>, m: nat, n: nat)
    requires Accepted(env, a) && Accepted(env, b) && PlainKinds(a) && PlainKinds(b) && NoCollision(env, a, b)
    requires m <= |a| && n <= |b|
    ensures Accepted(env, a[..m]) && Accepted(env, b[..n]) && PlainKinds(a[..m]) && PlainKinds(b[..n])
    ensures NoCollision(env, a[..m], b[..n])
  {
    PrefixAccepted(env, a, m);
    PrefixAccepted(env, b, n);
    PrefixNoCollision(env, a, b, m, n);
  }

  lemma PrefixNoCollision(env: Env, a: seq<Row>, b: seq<Row>, m: nat, n: nat)
    requires NoCollision(env, a, b) && m <= |a| && n <= |b|
    ensures NoCollision(env, a[..m], b[..n])
  {
    forall i, j | 0 <= i < m && 0 <= j < n && env.h(PreimageAt(env, a[..m], i)) == env.h(PreimageAt(env, b[..n], j))
      ensures PreimageAt(env, a[..m], i) == PreimageAt(env, b[..n], j)
    {
      assert a[..m][..i] == a[..i] && b[..n][..j] == b[..j];
      assert PreimageAt(env, a, i) == PreimageAt(env, a[..m], i) && PreimageAt(env, b, j) == PreimageAt(env, b[..n], j);
    }
  }

  // ------------------------------------------------------------------- Appending

  /** The next row: the next sequence number, chained to the hash of the last row. */
  function NextRow(env: Env, rows: seq<Row>, kind: string, payload: string): Row {
    var sequence := if rows == [] then 1 else rows[|rows| - 1].sequence + 1;
    Row(sequence, kind, payload, LastHash(rows), EventHash(env, LastHash(rows), sequence, kind, payload))
  }

  /** A journal that the appender wrote from its beginning. */
  ghost predicate Written(env: Env, rows: seq<Row>) {
    forall i | 0 <= i < |rows| :: WrittenAt(env, rows, i)
  }

  predicate WrittenAt(env: Env, rows: seq<Row>, i: nat)
    requires i < |rows|
  {
    rows[i] == NextRow(env, rows[..i], rows[i].kind, rows[i].payload)
  }

  /** The stored payload parses, and serializing it again gives the hash of the stored text. */
  predicate Reparses(env: Env, row: Row) {
    && env.canon(row.payload).Some?
    && EventHash(env, row.previousHash, row.sequence, row.kind, env.canon(row.payload).value)
       == EventHash(env, row.previousHash, row.sequence, row.kind, row.payload)
  }

  lemma ExtendWritten(env: Env, rows: seq<Row>, kind: string, payload: string)
    requires Written(env, rows)
    ensures Written(env, rows + [NextRow(env, rows, kind, payload)])
  {
    var rows' := rows + [NextRow(env, rows, kind, payload)];
    forall i | 0 <= i < |rows'| ensures WrittenAt(env, rows', i) {
      if i < |rows| {
        assert rows'[..i] == rows[..i] && WrittenAt(env, rows, i);
      } else {
        assert rows'[..i] == rows;
      }
    }
  }

  lemma {:induction false} WrittenIsNumbered(env: Env, rows: seq<Row>, n: nat)
    requires Written(env, rows) && n < |rows|
    ensures rows[n].sequence == n + 1
  {
    assert WrittenAt(env, rows, n);
    if n > 0 { WrittenIsNumbered(env, rows, n - 1); }
  }

  /** A written journal is numbered from 1 in order, and it is accepted exactly when every payload
      survives being parsed and serialized again. */
  lemma WrittenIsAcceptedExactly(env: Env, rows: seq<Row>)
    requires Written(env, rows)
    ensures forall i | 0 <= i < |rows| :: rows[i].sequence == i + 1
    ensures Accepted(env, rows) <==> forall row <- rows :: Reparses(env, row)
  {
    forall i | 0 <= i < |rows|
      ensures rows[i].sequence == i + 1 && (Links(env, LastHash(rows[..i]), rows[i]) <==> Reparses(env, rows[i]))
    {
      assert WrittenAt(env, rows, i);
      WrittenIsNumbered(env, rows, i);
    }
    assert (forall row <- rows :: Reparses(env, row)) <==> forall i | 0 <= i < |rows| :: Reparses(env, rows[i]);
  }

  class Chain {
    const env: Env
    var rows: seq<Row>

    ghost predicate Valid()
      reads this
    {
      Written(env, rows)
    }

    constructor (env: Env)
      ensures this.env == env && rows == [] && Valid()
    {
      this.env := env;
      rows := [];
    }

    /** Append with the next sequence number and the hash of the last row. */
    method AppendEvent(kind: string, payload: string)
      modifies this
      ensures rows == old(rows) + [NextRow(env, old(rows), kind, payload)]
      ensures old(Valid()) ==> Valid()
      ensures Accepted(env, rows) <==>
              Accepted(env, old(rows)) && Reparses(env, NextRow(env, old(rows), kind, payload))
    {
      var sequence, previousHash := 1, None;
      if rows != [] {
        var last := rows[|rows| - 1];
        sequence, previousHash := last.sequence + 1, Some(last.hash);
      }
      var hash := FeedEventHash(env, previousHash, sequence, kind, payload);
      var row := Row(sequence, kind, payload, previousHash, hash);
      assert row == NextRow(env, rows, kind, payload);
      if Accepted(env, rows) && Reparses(env, row) { ExtendAccepted(env, rows, row); }
      if Valid() { ExtendWritten(env, rows, kind, payload); }
      rows := rows + [row];
      if Accepted(env, rows) {
        PrefixAccepted(env, rows, |rows| - 1);
        assert rows[..|rows| - 1] == old(rows);
        assert Links(env, LastHash(rows[..|rows| - 1]), rows[|rows| - 1]);
      }
    }
  }
}
