/** Dotted component versions, compared part by part as unsigned 64-bit numbers. */
module Versions {
  import opened Decimals

  const TWO64 := 0x1_0000_0000_0000_0000

  /** The pieces between dots; there is always at least one. */
  function Split(text: string): (parts: seq<string>)
    ensures parts != []
  {
    if text == "" then [""]
    else
      var rest := Split(text[1..]);
      if text[0] == '.' then [""] + rest else [[text[0]] + rest[0]] + rest[1..]
  }

  /** `parse::<u64>().unwrap_or(0)`: an optional plus sign, digits, and no overflow. */
  function Part(text: string): nat {
    var digits := if |text| > 1 && text[0] == '+' then text[1..] else text;
    if digits != "" && AllDigits(digits) && Value(digits) < TWO64 then Value(digits) else 0
  }

  function Parts(texts: seq<string>): seq<nat> {
    if texts == [] then [] else [Part(texts[0])] + Parts(texts[1..])
  }

  function Parse(version: string): seq<nat> {
    Parts(Split(version))
  }

  predicate LexLess(a: seq<nat>, b: seq<nat>) {
    if b == [] then false
    else if a == [] then true
    else a[0] < b[0] || (a[0] == b[0] && LexLess(a[1..], b[1..]))
  }

  /** `compare_version(newer, older) == Greater`. */
  predicate Newer(newer: string, older: string) {
    LexLess(Parse(older), Parse(newer))
  }

  lemma {:induction false} LexTrichotomy(a: seq<nat>, b: seq<nat>)
    ensures LexLess(a, b) || LexLess(b, a) || a == b
    ensures !(LexLess(a, b) && LexLess(b, a))
    ensures !LexLess(a, a)
  {
    if a != [] && b != [] {
      LexTrichotomy(a[1..], b[1..]);
      if a[0] == b[0] && a[1..] == b[1..] {
        assert a == [a[0]] + a[1..] == b;
      }
    }
    if a != [] { LexTrichotomy(a[1..], a[1..]); }
  }

  lemma {:induction false} LexTransitive(a: seq<nat>, b: seq<nat>, c: seq<nat>)
    requires LexLess(a, b) && LexLess(b, c)
    ensures LexLess(a, c)
  {
    if a != [] && a[0] == b[0] && b[0] == c[0] {
      LexTransitive(a[1..], b[1..], c[1..]);
    }
  }

  /** Version comparison is a strict order, total up to equal numeric parts. */
  lemma NewerIsStrictOrder(a: string, b: string, c: string)
    ensures !Newer(a, a)
    ensures Newer(a, b) && Newer(b, c) ==> Newer(a, c)
    ensures Newer(a, b) || Newer(b, a) || Parse(a) == Parse(b)
    ensures !(Newer(a, b) && Newer(b, a))
  {
    LexTrichotomy(Parse(a), Parse(b));
    if Newer(a, b) && Newer(b, c) { LexTransitive(Parse(c), Parse(b), Parse(a)); }
  }

  // ------------------------------------------------------- What the comparison means

  /** The first `k` parts agree, and then `a` has a part left and `b` has none, or a larger one. */
  predicate AboveAt(a: seq<nat>, b: seq<nat>, k: nat) {
    && k <= |b| && k < |a| && a[..k] == b[..k]
    && (k == |b| || a[k] > b[k])
  }

  lemma {:induction false} LexLessExactly(a: seq<nat>, b: seq<nat>)
    ensures LexLess(a, b) <==> exists k: nat :: AboveAt(b, a, k)
  {
    if a == [] || b == [] {
      if b != [] { assert AboveAt(b, a, 0); }
    } else if a[0] != b[0] {
      if a[0] < b[0] { assert AboveAt(b, a, 0); }
      assert forall k: nat | 0 < k <= |a| && k <= |b| :: b[..k][0] == b[0] && a[..k][0] == a[0];
    } else {
      LexLessExactly(a[1..], b[1..]);
      if k: nat :| AboveAt(b[1..], a[1..], k) {
        assert b[..k + 1] == [b[0]] + b[1..][..k] && a[..k + 1] == [a[0]] + a[1..][..k];
        assert AboveAt(b, a, k + 1);
      }
      if k: nat :| AboveAt(b, a, k) {
        assert k > 0;
        assert b[1..][..k - 1] == b[..k][1..] && a[1..][..k - 1] == a[..k][1..];
        assert AboveAt(b[1..], a[1..], k - 1);
      }
    }
  }

  /** The first version is newer exactly when its numeric parts are larger at the first place
      where the two differ, or go on where the other one ends. */
  lemma NewerExactly(a: string, b: string)
    ensures Newer(a, b) <==> exists k: nat :: AboveAt(Parse(a), Parse(b), k)
  {
    LexLessExactly(Parse(b), Parse(a));
  }

  function Join(texts: seq<string>): string
    requires texts != []
  {
    if |texts| == 1 then texts[0] else texts[0] + "." + Join(texts[1..])
  }

  lemma {:induction false} SplitPlain(text: string)
    requires '.' !in text
    ensures Split(text) == [text]
  {
    if text != "" {
      assert forall c <- text[1..] :: c in text;
      SplitPlain(text[1..]);
      assert text[0] in text && text == [text[0]] + text[1..];
    }
  }

  lemma {:induction false} SplitFirst(text: string, rest: string)
    requires '.' !in text
    ensures Split(text + "." + rest) == [text] + Split(rest)
  {
    var whole := text + "." + rest;
    if text == "" {
      assert whole[1..] == rest;
    } else {
      assert forall c <- text[1..] :: c in text;
      assert whole[1..] == text[1..] + "." + rest;
      SplitFirst(text[1..], rest);
      assert whole[0] == text[0] && text == [text[0]] + text[1..];
    }
  }

  lemma OnePart(text: string)
    ensures Parts([text]) == [Part(text)]
  {
    assert Parts([text][1..]) == [];
  }

  /** The parts of a version are the texts between its dots, each read on its own. */
  lemma {:induction false} ParseOfJoin(texts: seq<string>)
    requires texts != [] && forall text <- texts :: '.' !in text
    ensures |Parse(Join(texts))| == |texts|
    ensures forall i | 0 <= i < |texts| :: Parse(Join(texts))[i] == Part(texts[i])
  {
    if |texts| == 1 {
      SplitPlain(texts[0]);
      OnePart(texts[0]);
    } else {
      SplitFirst(texts[0], Join(texts[1..]));
      ParseOfJoin(texts[1..]);
      var parts := Split(Join(texts[1..]));
      assert ([texts[0]] + parts)[1..] == parts;
      assert Parse(Join(texts)) == [Part(texts[0])] + Parse(Join(texts[1..]));
    }
  }

  /** A part reads as the number it spells in decimal, with or without a plus sign, if that fits
      64 bits, and as 0 otherwise. */
  lemma PartExactly(n: nat, text: string)
    ensures Part(Digits(n)) == Part("+" + Digits(n)) == if n < TWO64 then n else 0
    ensures (text == "" || exists i | 1 <= i < |text| :: !('0' <= text[i] <= '9')) ==> Part(text) == 0
    ensures text != "" && text[0] != '+' && !('0' <= text[0] <= '9') ==> Part(text) == 0
  {
    assert ("+" + Digits(n))[1..] == Digits(n);
    if i :| 1 <= i < |text| && !('0' <= text[i] <= '9') { assert text[1..][i - 1] == text[i]; }
  }

  function Texts(numbers: seq<nat>): (texts: seq<string>)
    ensures |texts| == |numbers| && forall i | 0 <= i < |numbers| :: texts[i] == Digits(numbers[i])
  {
    seq(|numbers|, i requires 0 <= i < |numbers| => Digits(numbers[i]))
  }

  /** Writing 64-bit numbers in decimal with dots between them and parsing gives the numbers back. */
  lemma ParseOfNumbers(numbers: seq<nat>)
    requires numbers != [] && forall n <- numbers :: n < TWO64
    ensures Parse(Join(Texts(numbers))) == numbers
  {
    var texts := Texts(numbers);
    forall i | 0 <= i < |numbers| ensures '.' !in texts[i] && Part(texts[i]) == numbers[i] {
      assert numbers[i] in numbers;
      PartExactly(numbers[i], "");
    }
    ParseOfJoin(texts);
  }

  /** So versions compare as lists of numbers, not as text. */
  lemma NumbersCompare(a: seq<nat>, b: seq<nat>)
    requires a != [] && b != [] && (forall n <- a :: n < TWO64) && (forall n <- b :: n < TWO64)
    ensures Newer(Join(Texts(a)), Join(Texts(b))) <==> exists k: nat :: AboveAt(a, b, k)
  {
    ParseOfNumbers(a);
    ParseOfNumbers(b);
    NewerExactly(Join(Texts(a)), Join(Texts(b)));
  }
}
