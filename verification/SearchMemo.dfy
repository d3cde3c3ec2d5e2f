/** The two tables of the certificate path search: a bitset over the reachable
    (subject, used-set) states, and a cache of signature verdicts. */
module SearchMemo {
  import opened Bits
  import opened Bytes

  const MAX_LEN: nat := 10
  const SUBJECT_STATE_COUNT: nat := 256
  const STATE_COUNT: nat := 2305
  const STATE_WORD_COUNT: nat := 37
  const WORD: nat := 64

  /** A state the search can be in: the leaf is always used, the subject is used,
      and the leaf is the subject only while it is the only certificate used. */
  ghost predicate Reachable(subject: nat, used: nat)
  {
    && subject < MAX_LEN && used < 1024
    && Has(used, 0) && Has(used, subject)
    && (subject == 0 ==> used == 1)
  }

  /** `lower + upper`: the word with digit `j` taken out. */
  function Compress(word: nat, j: nat): nat
  {
    Low(word, j) + Shl(Shr(word, j + 1), j)
  }

  /** The table position of a state. */
  function StateIndex(subject: nat, used: nat): nat
  {
    if subject == 0 then 0
    else 1 + (subject - 1) * SUBJECT_STATE_COUNT + Compress(used / 2, subject - 1)
  }

  /** The word with a digit 1 put in at position `j`. */
  function Expand(word: nat, j: nat): nat
    decreases j
  {
    if j == 0 then 2 * word + 1 else word % 2 + 2 * Expand(word / 2, j - 1)
  }

  lemma CompressStep(word: nat, j: nat)
    ensures Compress(word, 0) == word / 2
    ensures j > 0 ==> Compress(word, j) == word % 2 + 2 * Compress(word / 2, j - 1)
  {
    assert Shr(word, 1) == Shr(word / 2, 0);
  }

  lemma Digits(digit: nat, word: nat)
    requires digit < 2
    ensures (digit + 2 * word) % 2 == digit && (digit + 2 * word) / 2 == word
  {
  }

  lemma {:induction false} ExpandCompress(word: nat, j: nat)
    requires Has(word, j)
    ensures Expand(Compress(word, j), j) == word
    decreases j
  {
    hide Compress;
    CompressStep(word, j);
    if j != 0 {
      Digits(word % 2, Compress(word / 2, j - 1));
      ExpandCompress(word / 2, j - 1);
    }
  }

  lemma {:induction false} CompressExpand(word: nat, j: nat)
    ensures Has(Expand(word, j), j) && Compress(Expand(word, j), j) == word
    decreases j
  {
    hide Compress;
    CompressStep(Expand(word, j), j);
    if j != 0 {
      Digits(word % 2, Expand(word / 2, j - 1));
      CompressExpand(word / 2, j - 1);
    }
  }

  lemma {:induction false} CompressBound(word: nat, j: nat, width: nat)
    requires j < width && word < Pow2(width)
    ensures Compress(word, j) < Pow2(width - 1)
    decreases j
  {
    CompressStep(word, j);
    assert Pow2(width) == 2 * Pow2(width - 1);
    if j != 0 {
      assert Pow2(width - 1) == 2 * Pow2(width - 2);
      CompressBound(word / 2, j - 1, width - 1);
    }
  }

  lemma {:induction false} ExpandBound(word: nat, j: nat, width: nat)
    requires j <= width && word < Pow2(width)
    ensures Expand(word, j) < 2 * Pow2(width)
    decreases j
  {
    if j != 0 {
      assert Pow2(width) == 2 * Pow2(width - 1);
      ExpandBound(word / 2, j - 1, width - 1);
    }
  }

  lemma NineDigits(word: nat)
    requires word < 512
    ensures word < Pow2(9) && Pow2(8) == 256
  {
    assert Pow2(4) == 16;
    assert Pow2(8) == 256;
  }

  lemma CompressedUsed(subject: nat, used: nat)
    requires Reachable(subject, used) && subject > 0
    ensures Compress(used / 2, subject - 1) < SUBJECT_STATE_COUNT
    ensures used == 2 * Expand(Compress(used / 2, subject - 1), subject - 1) + 1
  {
    NineDigits(used / 2);
    CompressBound(used / 2, subject - 1, 9);
    ExpandCompress(used / 2, subject - 1);
  }

  /** The index stays inside the table. */
  lemma IndexInTable(subject: nat, used: nat)
    requires Reachable(subject, used)
    ensures StateIndex(subject, used) < STATE_COUNT
  {
    if subject > 0 {
      CompressedUsed(subject, used);
    }
  }

  /** Distinct reachable states never share an index. */
  lemma IndexInjective(s: nat, u: nat, t: nat, v: nat)
    requires Reachable(s, u) && Reachable(t, v) && StateIndex(s, u) == StateIndex(t, v)
    ensures s == t && u == v
  {
    if s > 0 {
      CompressedUsed(s, u);
    }
    if t > 0 {
      CompressedUsed(t, v);
    }
  }

  /** Every table position belongs to a reachable state, so none is wasted. */
  lemma IndexOnto(index: nat) returns (subject: nat, used: nat)
    requires index < STATE_COUNT
    ensures Reachable(subject, used) && StateIndex(subject, used) == index
  {
    if index == 0 {
      return 0, 1;
    }
    var j, c := (index - 1) / 256, (index - 1) % 256;
    var word := Expand(c, j);
    assert Pow2(4) == 16;
    assert Pow2(8) == 256;
    ExpandBound(c, j, 8);
    CompressExpand(c, j);
    subject, used := j + 1, 2 * word + 1;
    assert used / 2 == word;
  }

  /** The reachable state an admitted pair stands for: the leaf digit is not indexed. */
  function Normal(subject: nat, used: nat): (nat, nat)
  {
    if subject == 0 then (0, 1) else (subject, used / 2 * 2 + 1)
  }

  lemma NormalReachable(subject: nat, used: nat)
    requires subject < MAX_LEN && used < 1024 && (subject == 0 || Has(used, subject))
    ensures var (s, u) := Normal(subject, used);
            Reachable(s, u) && StateIndex(s, u) == StateIndex(subject, used)
    ensures Reachable(subject, used) ==> Normal(subject, used) == (subject, used)
  {
    var (s, u) := Normal(subject, used);
    assert u / 2 == used / 2 || subject == 0;
    hide Compress;
  }

  datatype Admission = Admitted(first: bool) | Inconsistent

  /** `Seen`: one bit per reachable state. */
  class Seen {
    const words: array<nat>
    ghost var visited: set<(nat, nat)>

    ghost predicate Marked(index: nat)
      reads words
    {
      index / WORD < words.Length && Has(words[index / WORD], index % WORD)
    }

    ghost predicate Valid()
      reads this, words
    {
      && words.Length == STATE_WORD_COUNT
      && (forall i :: 0 <= i < STATE_WORD_COUNT ==> words[i] < Pow2(WORD))
      && (forall s: nat, u: nat :: (s, u) in visited ==> Reachable(s, u))
      && (forall s: nat, u: nat :: Reachable(s, u) ==> (Marked(StateIndex(s, u)) <==> (s, u) in visited))
    }

    constructor ()
      ensures Valid() && fresh(words) && visited == {}
    {
      words := new nat[STATE_WORD_COUNT](_ => 0);
      visited := {};
      new;
      forall index: nat ensures !Marked(index) {
        ZeroHasNothing(index % WORD);
      }
    }

    /** `*word |= bit` at an index. */
    method Mark(index: nat)
      requires words.Length == STATE_WORD_COUNT && index < STATE_COUNT
      requires forall i :: 0 <= i < STATE_WORD_COUNT ==> words[i] < Pow2(WORD)
      modifies words
      ensures forall i :: 0 <= i < STATE_WORD_COUNT ==> words[i] < Pow2(WORD)
      ensures forall other: nat :: Marked(other) <==> other == index || old(Marked(other))
    {
      var w, bit := index / WORD, index % WORD;
      ghost var before := words[w];
      SetBitWidth(before, bit, WORD);
      words[w] := SetBit(words[w], bit);
      forall other: nat ensures Marked(other) <==> other == index || old(Marked(other)) {
        HasSetBit(before, bit, other % WORD);
      }
    }

    /** `Seen::admit`: true exactly once for every reachable state, and never an
        error on one; a subject outside the used set is the only error. */
    method Admit(subject: nat, used: nat) returns (r: Admission)
      requires Valid() && subject < MAX_LEN && used < 1024
      modifies this, words
      ensures Valid()
      ensures r == Inconsistent <==> subject != 0 && !Has(used, subject)
      ensures r == Inconsistent ==> visited == old(visited)
      ensures r.Admitted? ==>
                r.first == (Normal(subject, used) !in old(visited)) &&
                visited == old(visited) + {Normal(subject, used)}
    {
      if subject != 0 && !Has(used / 2, subject - 1) {
        return Inconsistent;
      }
      ghost var (s, u) := Normal(subject, used);
      NormalReachable(subject, used);
      var index := StateIndex(subject, used);
      IndexInTable(s, u);
      var first := !Has(words[index / WORD], index % WORD);
      assert Marked(StateIndex(s, u)) == !first;
      Mark(index);
      visited := visited + {(s, u)};
      forall t: nat, v: nat | Reachable(t, v) ensures Marked(StateIndex(t, v)) <==> (t, v) in visited {
        if StateIndex(t, v) == index {
          IndexInjective(s, u, t, v);
        }
      }
      return Admitted(first);
    }
  }

  /** `SignatureCache`, with the log of the verifications actually made. */
  class SignatureCache {
    const checked: array<nat>
    const valid: array<nat>
    ghost var log: seq<(nat, nat)>

    /** Every cached answer is the verdict of direct verification, and the log holds
        exactly the cached pairs, each once. */
    ghost predicate Valid(verdict: (nat, nat) -> bool)
      reads this, checked, valid
    {
      && checked != valid && checked.Length == valid.Length == MAX_LEN
      && (forall s, i :: 0 <= s < MAX_LEN && 0 <= i < MAX_LEN && Has(checked[s], i) ==>
            (Has(valid[s], i) <==> verdict(s, i)))
      && (forall s, i :: 0 <= s < MAX_LEN && 0 <= i < MAX_LEN ==> (Has(checked[s], i) <==> (s, i) in log))
      && (forall s, i :: 0 <= s < MAX_LEN && 0 <= i < MAX_LEN && Has(valid[s], i) ==> Has(checked[s], i))
      && (forall a, b :: 0 <= a < b < |log| ==> log[a] != log[b])
    }

    constructor (ghost verdict: (nat, nat) -> bool)
      ensures Valid(verdict) && fresh(checked) && fresh(valid) && log == []
    {
      checked := new nat[MAX_LEN](_ => 0);
      valid := new nat[MAX_LEN](_ => 0);
      log := [];
      new;
      forall i: nat ensures !Has(0, i) {
        ZeroHasNothing(i);
      }
    }

    method Get(subject: nat, issuer: nat, ghost verdict: (nat, nat) -> bool) returns (r: Option<bool>)
      requires Valid(verdict) && subject < MAX_LEN && issuer < MAX_LEN
      ensures r.Some? <==> (subject, issuer) in log
      ensures r.Some? ==> r.value == verdict(subject, issuer)
    {
      if Has(checked[subject], issuer) {
        r := Some(Has(valid[subject], issuer));
      } else {
        r := None;
      }
    }

    method Insert(subject: nat, issuer: nat, answer: bool, ghost verdict: (nat, nat) -> bool)
      requires Valid(verdict) && subject < MAX_LEN && issuer < MAX_LEN
      requires (subject, issuer) !in log && answer == verdict(subject, issuer)
      modifies this, checked, valid
      ensures Valid(verdict) && log == old(log) + [(subject, issuer)]
    {
      ghost var c, v := checked[subject], valid[subject];
      assert !Has(c, issuer);
      checked[subject] := SetBit(checked[subject], issuer);
      if answer {
        valid[subject] := SetBit(valid[subject], issuer);
      }
      log := log + [(subject, issuer)];
      forall i | 0 <= i < MAX_LEN
        ensures Has(checked[subject], i) <==> i == issuer || Has(c, i)
        ensures Has(valid[subject], i) <==> (i == issuer && answer) || Has(v, i)
      {
        HasSetBit(c, issuer, i);
        HasSetBit(v, issuer, i);
      }
    }
  }
}
