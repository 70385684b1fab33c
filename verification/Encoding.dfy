/** Length-prefixed messages that hooks sign, and the digests built the same way. */
module Encoding {
  import opened Decimals
  import opened Journal

  type Byte = b: int | 0 <= b < 256

  const TWO64 := 0x1_0000_0000_0000_0000

  /** The bytes of a string; a length always fits the 64-bit prefix. */
  type Field = f: seq<Byte> | |f| < TWO64

  // ---------------------------------------------------------- Length prefixes

  function Pow256(k: nat): nat {
    if k == 0 then 1 else 256 * Pow256(k - 1)
  }

  /** The low `k` bytes of a number, most significant first. */
  function BigEndian(n: nat, k: nat): (bytes: seq<Byte>)
    ensures |bytes| == k
  {
    if k == 0 then [] else BigEndian(n / 256, k - 1) + [n % 256]
  }

  lemma {:induction false} BigEndianInjective(a: nat, b: nat, k: nat)
    requires a < Pow256(k) && b < Pow256(k) && BigEndian(a, k) == BigEndian(b, k)
    ensures a == b
  {
    if k > 0 {
      assert BigEndian(a, k)[..k - 1] == BigEndian(a / 256, k - 1);
      assert BigEndian(b, k)[..k - 1] == BigEndian(b / 256, k - 1);
      assert BigEndian(a, k)[k - 1] == a % 256 && BigEndian(b, k)[k - 1] == b % 256;
      BigEndianInjective(a / 256, b / 256, k - 1);
    }
  }

  lemma EightBytes()
    ensures Pow256(8) == TWO64
  {
  }

  function AppendField(f: Field): seq<Byte> {
    BigEndian(|f|, 8) + f
  }

  function Encode(fields: seq<Field>): seq<Byte> {
    if fields == [] then [] else AppendField(fields[0]) + Encode(fields[1..])
  }

  lemma HeadsAgree(f: Field, x: seq<Byte>, g: Field, y: seq<Byte>)
    requires AppendField(f) + x == AppendField(g) + y
    ensures f == g && x == y
  {
    var whole := AppendField(f) + x;
    assert whole[..8] == BigEndian(|f|, 8) && whole[..8] == BigEndian(|g|, 8);
    EightBytes();
    BigEndianInjective(|f|, |g|, 8);
    assert whole[8..8 + |f|] == f && whole[8..8 + |g|] == g;
    assert whole[8 + |f|..] == x && whole[8 + |g|..] == y;
  }

  /** A message determines its list of fields: their number, their order and every byte. */
  lemma {:induction false} EncodeInjective(fields: seq<Field>, others: seq<Field>)
    requires Encode(fields) == Encode(others)
    ensures fields == others
  {
    if fields != [] && others != [] {
      HeadsAgree(fields[0], Encode(fields[1..]), others[0], Encode(others[1..]));
      EncodeInjective(fields[1..], others[1..]);
      assert fields == [fields[0]] + fields[1..] && others == [others[0]] + others[1..];
    }
  }

  /** The number that bytes spell, most significant first. */
  function Number(bytes: seq<Byte>): nat {
    if bytes == [] then 0 else 256 * Number(bytes[..|bytes| - 1]) + bytes[|bytes| - 1]
  }

  lemma {:induction false} NumberOfBigEndian(n: nat, k: nat)
    requires n < Pow256(k)
    ensures Number(BigEndian(n, k)) == n
  {
    if k > 0 {
      assert BigEndian(n, k)[..k - 1] == BigEndian(n / 256, k - 1);
      NumberOfBigEndian(n / 256, k - 1);
    }
  }

  /** Read a message back: eight bytes of length, then that many bytes, until nothing is left. */
  function Decode(bytes: seq<Byte>): Option<seq<Field>> {
    if bytes == [] then Some([])
    else if |bytes| < 8 then None
    else
      var n := Number(bytes[..8]);
      if n >= TWO64 || |bytes| < 8 + n then None
      else
        match Decode(bytes[8 + n..])
        case None => None
        case Some(rest) => Some([bytes[8..8 + n]] + rest)
  }

  /** Reading a message back gives the fields it was made of. */
  lemma {:induction false} DecodeOfEncode(fields: seq<Field>)
    ensures Decode(Encode(fields)) == Some(fields)
  {
    if fields != [] {
      var f, bytes := fields[0], Encode(fields);
      EightBytes();
      NumberOfBigEndian(|f|, 8);
      assert bytes[..8] == BigEndian(|f|, 8) && bytes[8..8 + |f|] == f && bytes[8 + |f|..] == Encode(fields[1..]);
      DecodeOfEncode(fields[1..]);
      assert fields == [f] + fields[1..];
    }
  }

  lemma {:induction false} EncodeOneMore(fields: seq<Field>, k: nat)
    requires k < |fields|
    ensures Encode(fields[..k + 1]) == Encode(fields[..k]) + AppendField(fields[k])
    decreases k
  {
    if k > 0 {
      assert fields[..k + 1][1..] == fields[1..][..k] && fields[..k][1..] == fields[1..][..k - 1];
      EncodeOneMore(fields[1..], k - 1);
    } else {
      assert fields[..1][1..] == [];
    }
  }

  /** Append the fields one by one to a buffer. */
  method AppendFields(fields: seq<Field>) returns (bytes: seq<Byte>)
    ensures bytes == Encode(fields)
  {
    bytes := [];
    for k := 0 to |fields|
      invariant bytes == Encode(fields[..k])
    {
      EncodeOneMore(fields, k);
      bytes := bytes + BigEndian(|fields[k]|, 8);
      bytes := bytes + fields[k];
    }
    assert fields[..|fields|] == fields;
  }

  // ---------------------------------------------------- Context hook responses

  datatype ContextResponse = ContextResponse(
    run: Field,
    session: Field,
    scopeDigest: Field,
    candidateDigest: Field,
    immutableRefsDigest: Field,
    artifactDigests: seq<Field>)

  function ContextFields(r: ContextResponse, provider: Field, request: Field): seq<Field> {
    [provider, request, r.run, r.session, r.scopeDigest, r.candidateDigest, r.immutableRefsDigest] + r.artifactDigests
  }

  method ContextMessage(r: ContextResponse, provider: Field, request: Field) returns (bytes: seq<Byte>)
    ensures bytes == Encode(ContextFields(r, provider, request))
    ensures Decode(bytes) == Some([provider, request, r.run, r.session, r.scopeDigest, r.candidateDigest,
                                   r.immutableRefsDigest] + r.artifactDigests)
  {
    DecodeOfEncode(ContextFields(r, provider, request));
    bytes := AppendFields(ContextFields(r, provider, request));
  }

  /** Equal context messages come from the same provider, request and response, with the artifact
      digests in the same order. */
  lemma ContextMessageDecodes(r1: ContextResponse, p1: Field, q1: Field, r2: ContextResponse, p2: Field, q2: Field)
    requires Encode(ContextFields(r1, p1, q1)) == Encode(ContextFields(r2, p2, q2))
    ensures p1 == p2 && q1 == q2 && r1 == r2
  {
    var f1, f2 := ContextFields(r1, p1, q1), ContextFields(r2, p2, q2);
    EncodeInjective(f1, f2);
    assert f1[0] == p1 && f1[1] == q1 && f1[2] == r1.run && f1[3] == r1.session && f1[4] == r1.scopeDigest;
    assert f1[5] == r1.candidateDigest && f1[6] == r1.immutableRefsDigest && f1[7..] == r1.artifactDigests;
    assert f2[0] == p2 && f2[1] == q2 && f2[2] == r2.run && f2[3] == r2.session && f2[4] == r2.scopeDigest;
    assert f2[5] == r2.candidateDigest && f2[6] == r2.immutableRefsDigest && f2[7..] == r2.artifactDigests;
  }

  // ------------------------------------------------------ Budget hook responses

  datatype ExhaustionAction = Terminate | Yield

  type U64 = n: int | 0 <= n < TWO64

  datatype BudgetResponse = BudgetResponse(
    request: Field,
    run: Field,
    maxToolRounds: U64,
    maxWallTimeMs: U64,
    exhaustion: ExhaustionAction)

  /** Decimal digits are single bytes. */
  function Ascii(n: nat): (bytes: seq<Byte>)
    ensures |bytes| == |Digits(n)|
    ensures forall i | 0 <= i < |bytes| :: bytes[i] == Digits(n)[i] as int
  {
    var text := Digits(n);
    seq(|text|, i requires 0 <= i < |text| => text[i] as int)
  }

  lemma AsciiInjective(a: nat, b: nat)
    requires Ascii(a) == Ascii(b)
    ensures a == b
  {
    assert Digits(a) == Digits(b) by {
      assert forall i | 0 <= i < |Digits(a)| ::
        Ascii(a)[i] == Digits(a)[i] as int && Ascii(b)[i] == Digits(b)[i] as int;
    }
  }

  lemma {:induction false} DigitsShort(n: nat)
    ensures |Digits(n)| <= 1 + n / 10
  {
    if n >= 10 { DigitsShort(n / 10); }
  }

  function ActionText(action: ExhaustionAction): Field {
    match action
    case Terminate => [116, 101, 114, 109, 105, 110, 97, 116, 101]
    case Yield => [121, 105, 101, 108, 100]
  }

  /** The text of a machine number, whose own length fits the prefix. */
  function NumberText(n: U64): (f: Field)
    ensures f == Ascii(n)
  {
    DigitsShort(n);
    Ascii(n)
  }

  function BudgetFields(r: BudgetResponse, provider: Field): seq<Field> {
    [provider, r.request, r.run, NumberText(r.maxToolRounds), NumberText(r.maxWallTimeMs), ActionText(r.exhaustion)]
  }

  method BudgetMessage(r: BudgetResponse, provider: Field) returns (bytes: seq<Byte>)
    ensures bytes == Encode(BudgetFields(r, provider))
    ensures Decode(bytes) == Some([provider, r.request, r.run, Ascii(r.maxToolRounds), Ascii(r.maxWallTimeMs),
                                   if r.exhaustion.Yield? then [121, 105, 101, 108, 100]
                                   else [116, 101, 114, 109, 105, 110, 97, 116, 101]])
  {
    DecodeOfEncode(BudgetFields(r, provider));
    bytes := AppendFields(BudgetFields(r, provider));
  }

  /** Equal budget messages come from the same provider and the same response, numbers included. */
  lemma BudgetMessageDecodes(r1: BudgetResponse, p1: Field, r2: BudgetResponse, p2: Field)
    requires Encode(BudgetFields(r1, p1)) == Encode(BudgetFields(r2, p2))
    ensures p1 == p2 && r1 == r2
  {
    var f1, f2 := BudgetFields(r1, p1), BudgetFields(r2, p2);
    EncodeInjective(f1, f2);
    assert f1[0] == f2[0] && f1[1] == f2[1] && f1[2] == f2[2] && f1[3] == f2[3] && f1[4] == f2[4] && f1[5] == f2[5];
    AsciiInjective(r1.maxToolRounds, r2.maxToolRounds);
    AsciiInjective(r1.maxWallTimeMs, r2.maxWallTimeMs);
    assert ActionText(Terminate)[0] != ActionText(Yield)[0];
  }

  // ---------------------------------------------------------- Immutable references

  datatype Ref = Ref(id: Field, digest: Field)

  function RefFields(refs: seq<Ref>): seq<Field> {
    if refs == [] then [] else [refs[0].id, refs[0].digest] + RefFields(refs[1..])
  }

  /** What is hashed for a list of references determines the list. */
  lemma {:induction false} RefFieldsInjective(refs: seq<Ref>, others: seq<Ref>)
    requires Encode(RefFields(refs)) == Encode(RefFields(others))
    ensures refs == others
    decreases |refs|
  {
    EncodeInjective(RefFields(refs), RefFields(others));
    if refs != [] && others != [] {
      var f, g := RefFields(refs), RefFields(others);
      assert f[0] == refs[0].id && f[1] == refs[0].digest && f[2..] == RefFields(refs[1..]);
      assert g[0] == others[0].id && g[1] == others[0].digest && g[2..] == RefFields(others[1..]);
      RefFieldsInjective(refs[1..], others[1..]);
      assert refs == [refs[0]] + refs[1..] && others == [others[0]] + others[1..];
    }
  }

  lemma {:induction false} RefFieldsOneMore(refs: seq<Ref>, k: nat)
    requires k < |refs|
    ensures RefFields(refs[..k + 1]) == RefFields(refs[..k]) + [refs[k].id, refs[k].digest]
    decreases k
  {
    if k > 0 {
      assert refs[..k + 1][1..] == refs[1..][..k] && refs[..k][1..] == refs[1..][..k - 1];
      RefFieldsOneMore(refs[1..], k - 1);
    } else {
      assert refs[..1][1..] == [];
    }
  }

  /** References are hashed in order, each as its id followed by its digest. */
  lemma {:induction false} RefFieldsAt(refs: seq<Ref>, k: nat)
    requires k < |refs|
    ensures |RefFields(refs)| == 2 * |refs|
    ensures RefFields(refs)[2 * k] == refs[k].id && RefFields(refs)[2 * k + 1] == refs[k].digest
  {
    if |refs| > 1 { RefFieldsAt(refs[1..], if k > 0 then k - 1 else 0); }
  }

  method DigestImmutableRefs(h: seq<Byte> -> string, refs: seq<Ref>) returns (digest: string)
    ensures digest == h(Encode(RefFields(refs)))
  {
    var fields: seq<Field> := [];
    for k := 0 to |refs|
      invariant fields == RefFields(refs[..k])
    {
      RefFieldsOneMore(refs, k);
      fields := fields + [refs[k].id, refs[k].digest];
    }
    assert refs[..|refs|] == refs;
    var bytes := AppendFields(fields);
    digest := h(bytes);
  }

  /** Two lists of references have the same digest exactly when they are equal, unless the two
      hashed messages collide. */
  lemma RefsDigestExactly(h: seq<Byte> -> string, a: seq<Ref>, b: seq<Ref>)
    requires h(Encode(RefFields(a))) == h(Encode(RefFields(b))) ==> Encode(RefFields(a)) == Encode(RefFields(b))
    ensures h(Encode(RefFields(a))) == h(Encode(RefFields(b))) <==> a == b
  {
    if Encode(RefFields(a)) == Encode(RefFields(b)) { RefFieldsInjective(a, b); }
  }

  // ------------------------------------------------------------- Operations digest

  /** Byte-wise lexicographic order, the order of strings. */
  predicate Leq(a: seq<Byte>, b: seq<Byte>) {
    if a == [] then true
    else if b == [] then false
    else a[0] < b[0] || (a[0] == b[0] && Leq(a[1..], b[1..]))
  }

  lemma {:induction false} LeqTotal(a: seq<Byte>, b: seq<Byte>)
    ensures Leq(a, b) || Leq(b, a)
    ensures Leq(a, b) && Leq(b, a) ==> a == b
  {
    if a != [] && b != [] {
      LeqTotal(a[1..], b[1..]);
      assert a == [a[0]] + a[1..] && b == [b[0]] + b[1..];
    }
  }

  /** Bytewise order: one is a prefix of the other, or has the smaller byte at the first place where
      they differ. */
  lemma {:induction false} LeqExactly(a: seq<Byte>, b: seq<Byte>)
    ensures Leq(a, b) <==> a <= b || exists k: nat :: SmallerAt(a, b, k)
  {
    if a != [] && b != [] {
      LeqExactly(a[1..], b[1..]);
      assert forall k: nat | 0 < k <= |a| && k <= |b| :: a[..k][0] == a[0] && b[..k][0] == b[0];
      if a[0] < b[0] {
        assert SmallerAt(a, b, 0);
      } else if a[0] == b[0] {
        assert a <= b <==> a[1..] <= b[1..];
        if k: nat :| SmallerAt(a[1..], b[1..], k) {
          assert a[..k + 1] == [a[0]] + a[1..][..k] && b[..k + 1] == [b[0]] + b[1..][..k];
          assert SmallerAt(a, b, k + 1);
        }
        if k: nat :| SmallerAt(a, b, k) {
          assert k > 0;
          assert a[1..][..k - 1] == a[..k][1..] && b[1..][..k - 1] == b[..k][1..];
          assert SmallerAt(a[1..], b[1..], k - 1);
        }
      }
    }
  }

  predicate SmallerAt(a: seq<Byte>, b: seq<Byte>, k: nat) {
    k < |a| && k < |b| && a[..k] == b[..k] && a[k] < b[k]
  }

  lemma {:induction false} LeqTransitive(a: seq<Byte>, b: seq<Byte>, c: seq<Byte>)
    requires Leq(a, b) && Leq(b, c)
    ensures Leq(a, c)
  {
    if a != [] && a[0] == b[0] && b[0] == c[0] { LeqTransitive(a[1..], b[1..], c[1..]); }
  }

  predicate Sorted(names: seq<Field>) {
    forall i, j | 0 <= i < j < |names| :: Leq(names[i], names[j])
  }

  function Insert(sorted: seq<Field>, name: Field): seq<Field> {
    if sorted == [] then [name]
    else if Leq(name, sorted[0]) then [name] + sorted
    else [sorted[0]] + Insert(sorted[1..], name)
  }

  function Sort(names: seq<Field>): seq<Field> {
    if names == [] then [] else Insert(Sort(names[..|names| - 1]), names[|names| - 1])
  }

  lemma {:induction false} InsertMembers(sorted: seq<Field>, name: Field, x: Field)
    requires x in Insert(sorted, name)
    ensures x == name || x in sorted
  {
    if sorted != [] && !Leq(name, sorted[0]) && x != sorted[0] { InsertMembers(sorted[1..], name, x); }
  }

  lemma PrependSorted(x: Field, rest: seq<Field>)
    requires Sorted(rest) && forall j | 0 <= j < |rest| :: Leq(x, rest[j])
    ensures Sorted([x] + rest)
  {
  }

  lemma {:induction false} InsertSorted(sorted: seq<Field>, name: Field)
    requires Sorted(sorted)
    ensures Sorted(Insert(sorted, name))
  {
    if sorted != [] {
      if Leq(name, sorted[0]) {
        forall j | 0 <= j < |sorted| ensures Leq(name, sorted[j]) {
          if j > 0 { LeqTransitive(name, sorted[0], sorted[j]); }
        }
        PrependSorted(name, sorted);
      } else {
        var rest := Insert(sorted[1..], name);
        InsertSorted(sorted[1..], name);
        LeqTotal(name, sorted[0]);
        forall j | 0 <= j < |rest| ensures Leq(sorted[0], rest[j]) { InsertMembers(sorted[1..], name, rest[j]); }
        PrependSorted(sorted[0], rest);
      }
    }
  }

  lemma {:induction false} InsertCounts(sorted: seq<Field>, name: Field)
    ensures multiset(Insert(sorted, name)) == multiset(sorted) + multiset{name}
  {
    if sorted != [] {
      assert sorted == [sorted[0]] + sorted[1..];
      if !Leq(name, sorted[0]) { InsertCounts(sorted[1..], name); }
    }
  }

  lemma {:induction false} SortKeeps(names: seq<Field>)
    ensures Sorted(Sort(names)) && multiset(Sort(names)) == multiset(names)
  {
    if names != [] {
      var n := |names| - 1;
      assert names == names[..n] + [names[n]];
      SortKeeps(names[..n]);
      InsertSorted(Sort(names[..n]), names[n]);
      InsertCounts(Sort(names[..n]), names[n]);
    }
  }

  lemma SameFirst(a: seq<Field>, b: seq<Field>)
    requires Sorted(a) && Sorted(b) && multiset(a) == multiset(b) && a != []
    ensures b != [] && a[0] == b[0] && multiset(a[1..]) == multiset(b[1..])
  {
    assert a[0] in multiset(b);
    assert b[0] in multiset(a);
    LeastFirst(a, b[0]);
    LeastFirst(b, a[0]);
    LeqTotal(a[0], b[0]);
    TailCounts(a);
    TailCounts(b);
  }

  lemma TailCounts(a: seq<Field>)
    requires a != []
    ensures multiset(a[1..]) == multiset(a) - multiset{a[0]}
  {
    assert a == [a[0]] + a[1..];
  }

  /** A multiset of names has one sorted listing. */
  lemma {:induction false} SortedIsUnique(a: seq<Field>, b: seq<Field>)
    requires Sorted(a) && Sorted(b) && multiset(a) == multiset(b)
    ensures a == b
  {
    if a == [] {
      assert |multiset(b)| == 0;
    } else {
      SameFirst(a, b);
      SortedIsUnique(a[1..], b[1..]);
      assert a == [a[0]] + a[1..] && b == [b[0]] + b[1..];
    }
  }

  lemma LeastFirst(a: seq<Field>, x: Field)
    requires Sorted(a) && x in multiset(a)
    ensures Leq(a[0], x)
  {
    var i :| 0 <= i < |a| && a[i] == x;
    if i == 0 { LeqTotal(x, x); }
  }

  /** Sort the names and hash them length-prefixed; `h` is the digest. */
  method ComputeOperationsDigest(h: seq<Byte> -> string, names: seq<Field>) returns (digest: string)
    ensures digest == h(Encode(Sort(names)))
  {
    var sorted: seq<Field> := [];
    for k := 0 to |names|
      invariant sorted == Sort(names[..k])
    {
      assert names[..k + 1][..k] == names[..k];
      sorted := Insert(sorted, names[k]);
    }
    assert names[..|names|] == names;
    var bytes := AppendFields(sorted);
    digest := h(bytes);
  }

  /** Two lists of operations have the same digest exactly when they hold the same names equally
      often, unless the two hashed messages collide. */
  lemma OperationsDigestExactly(h: seq<Byte> -> string, a: seq<Field>, b: seq<Field>)
    requires h(Encode(Sort(a))) == h(Encode(Sort(b))) ==> Encode(Sort(a)) == Encode(Sort(b))
    ensures h(Encode(Sort(a))) == h(Encode(Sort(b))) <==> multiset(a) == multiset(b)
  {
    SortKeeps(a);
    SortKeeps(b);
    if multiset(a) == multiset(b) { SortedIsUnique(Sort(a), Sort(b)); }
    if Encode(Sort(a)) == Encode(Sort(b)) { EncodeInjective(Sort(a), Sort(b)); }
  }
}
