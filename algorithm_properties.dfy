/** What the two conversions promise together: they are inverse to each other
    on the registered codes, encoding is injective, and decoding succeeds on
    exactly the 40 codes that encoding produces. */
module AlgorithmProperties {
  import opened Errors
  import opened Tss
  import opened Algorithms

  /** Decoding an encoded variant gives the variant back. */
  lemma DecodeEncode(a: Algorithm)
    ensures TryFrom(From(a)) == Ok(a)
  {
  }

  /** A code that decodes encodes back to itself. */
  lemma EncodeDecode(id: TPM2_ALG_ID)
    ensures TryFrom(id).Ok? ==> From(TryFrom(id).value) == id
  {
  }

  /** The registry is exactly the graph of `From`: it pairs each variant with
      one code and with no other. */
  lemma RegistryIsGraphOfFrom(a: Algorithm, id: TPM2_ALG_ID)
    ensures Registered(a, id) <==> From(a) == id
  {
  }

  /** The registry is exactly the graph of `TryFrom` on its successes. */
  lemma RegistryIsGraphOfTryFrom(a: Algorithm, id: TPM2_ALG_ID)
    ensures Registered(a, id) <==> TryFrom(id) == Ok(a)
  {
  }

  /** Distinct variants have distinct codes: `TryFrom` is a left inverse. */
  lemma FromInjective(a: Algorithm, b: Algorithm)
    ensures From(a) == From(b) ==> a == b
  {
    DecodeEncode(a);
    DecodeEncode(b);
  }

  /** Decoding succeeds exactly on the image of encoding; every other code
      fails (with `InvalidParam`, the only error kind). */
  lemma DecodeSucceedsExactlyOnImage(id: TPM2_ALG_ID)
    ensures TryFrom(id).Ok? <==> exists a :: From(a) == id
  {
    if TryFrom(id).Ok? {
      EncodeDecode(id);
    } else {
      forall a ensures From(a) != id {
        DecodeEncode(a);
      }
    }
  }

  /** Distinct positions of the declaration hold distinct variants. */
  lemma DiscriminantOfVariantAt(i: nat)
    requires i < VariantCount
    ensures Discriminant(VariantAt(i)) == i
  {
  }

  /** The variant list names every variant, once each. */
  lemma AllAlgorithmsEnumerates(a: Algorithm)
    ensures |AllAlgorithms| == 40
    ensures a in AllAlgorithms
    ensures forall i, j :: 0 <= i < j < |AllAlgorithms| ==> AllAlgorithms[i] != AllAlgorithms[j]
  {
    assert AllAlgorithms[Discriminant(a)] == a;
    forall i, j | 0 <= i < j < |AllAlgorithms| ensures AllAlgorithms[i] != AllAlgorithms[j] {
      DiscriminantOfVariantAt(i);
      DiscriminantOfVariantAt(j);
    }
  }

  /** The codes of the variants in `s`. */
  function CodesOf(s: seq<Algorithm>): set<TPM2_ALG_ID> {
    set a | a in s :: From(a)
  }

  /** Encoding maps a list of distinct variants to as many distinct codes. */
  lemma {:induction false} CodesOfCardinality(s: seq<Algorithm>)
    requires forall i, j :: 0 <= i < j < |s| ==> s[i] != s[j]
    ensures |CodesOf(s)| == |s|
  {
    if s != [] {
      CodesOfCardinality(s[1..]);
      assert CodesOf(s) == CodesOf(s[1..]) + {From(s[0])} by {
        assert forall a :: a in s <==> a in s[1..] || a == s[0];
      }
      forall a | a in s[1..] ensures From(a) != From(s[0]) {
        FromInjective(a, s[0]);
      }
    }
  }

  /** The set of codes that decode has exactly 40 elements, one per variant. */
  lemma DecodableCodesCount()
    ensures forall id :: id in CodesOf(AllAlgorithms) <==> TryFrom(id).Ok?
    ensures |CodesOf(AllAlgorithms)| == 40
  {
    AllAlgorithmsEnumerates(Error);
    CodesOfCardinality(AllAlgorithms);
    forall id | TryFrom(id).Ok? ensures id in CodesOf(AllAlgorithms) {
      EncodeDecode(id);
      AllAlgorithmsEnumerates(TryFrom(id).value);
    }
  }

  /** `Sha1` is the only variant with code 0x0004. */
  lemma Sha1IsTheOnlyNameForItsCode(a: Algorithm)
    ensures From(a) == 0x0004 <==> a == Sha1
  {
    FromInjective(a, Sha1);
  }

  /** Codes that map to well-known variants, both ways; 0x0000 is mapped to
      `Error` rather than rejected. */
  lemma WellKnownCodes()
    ensures From(Error) == 0x0000 && TryFrom(0x0000) == Ok(Error)
    ensures From(Null) == 0x0010 && TryFrom(0x0010) == Ok(Null)
    ensures From(Sha256) == 0x000B && TryFrom(0x000B) == Ok(Sha256)
    ensures From(Rsa) == 0x0001 && TryFrom(0x0001) == Ok(Rsa)
  {
  }

  /** Unassigned codes fail with `InvalidParam`, never with a default variant. */
  lemma UnassignedCodesRejected()
    ensures TryFrom(0x0002) == Err(InvalidParam)
    ensures TryFrom(0x0009) == Err(InvalidParam)
    ensures TryFrom(0x9999) == Err(InvalidParam)
    ensures TryFrom(0xFFFF) == Err(InvalidParam)
  {
  }
}
