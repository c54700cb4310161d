/**
 The metablock as an opaque body: its length and CRC in the header line
 (streamingwriter.cpp, blockwriter.cpp) and their check on reading (manager.cpp,
 integrity.rs). What the body says is left to a parser given as a parameter.
 */
module Metablock {
  import opened Bytes
  import opened OsfTypes
  import opened Crc32cModel
  import opened Codec
  import opened Header

  /** The CRC of a body as the number the header token prints. */
  function BodyCrc(body: bytes): u32 {
    hide StoredWord, Crc;
    Pow256Values();
    UnLe(StoredWord(Crc(body)))
  }

  method ComputeBodyCrc(tables: array2<word>, body: bytes) returns (c: u32)
    requires TablesCorrect(tables)
    ensures c == BodyCrc(body)
  {
    hide UnLe, StoredWord, Crc, TablesCorrect, Pow256;
    var w := OneShot(tables, body);
    Pow256Values();
    c := UnLe(StoredWord(w));
  }

  /** The header line a writer puts in front of `body`. */
  function LineFor(body: bytes, frameCrc: bool): bytes
    requires |body| < TWO_TO_THE_64
  {
    MagicLine(|body|, if frameCrc then Some(BodyCrc(body)) else None)
  }

  /** No CRC declared, or the declared one is the body's. */
  predicate BodyChecks(expected: Option<u32>, body: bytes) {
    expected.Some? ==> BodyCrc(body) == expected.value
  }

  lemma StoredWordInjective(a: word, b: word)
    requires UnLe(StoredWord(a)) == UnLe(StoredWord(b))
    ensures a == b
  {
    hide StoredWord, Rd32;
    LeOfUnLe(StoredWord(a));
    LeOfUnLe(StoredWord(b));
    StoredWordReadsBack(a);
    StoredWordReadsBack(b);
  }

  /** Damage to at most four consecutive bytes of the body never passes the check. */
  lemma {:induction false} BodyBurstDetected(body: bytes, damaged: bytes, p: nat)
    requires Burst(body, damaged, p)
    ensures !BodyChecks(Some(BodyCrc(body)), damaged)
  {
    hide StoredWord, UnLe, Serial, Xor;
    var pad: bytes := [0, 0, 0, 0];
    assert (body + pad)[..|body|] == body && (damaged + pad)[..|body|] == damaged;
    BurstUndetectedNever(body + pad, damaged + pad, p, 0);
    SerialConcat(ALL_ONES, body, pad);
    SerialConcat(ALL_ONES, damaged, pad);
    if BodyCrc(body) == BodyCrc(damaged) {
      StoredWordInjective(Crc(body), Crc(damaged));
      XorCancels(Serial(ALL_ONES, body), Serial(ALL_ONES, damaged));
      assert false;
    }
  }

  lemma XorCancels(a: word, b: word)
    requires Xor(a, ALL_ONES) == Xor(b, ALL_ONES)
    ensures a == b
  {
  }
}
