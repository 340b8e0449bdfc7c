/** A `match` over constants runs its arms top to bottom and takes the first
    one that fits. These lemmas show that any arrangement of the registry's
    pairs as arms decodes and encodes exactly as `TryFrom` and `From` do, so
    neither conversion depends on the order its arms are written in. */
module ArmOrder {
  import opened Errors
  import opened Tss
  import opened Algorithms
  import opened AlgorithmProperties

  /** One arm of a match: a variant and the code it stands for. */
  type Arm = (Algorithm, TPM2_ALG_ID)

  /** A decoding match: the variant of the first arm whose code is `id`,
      falling through to `InvalidParam`. */
  function FirstMatchDecode(arms: seq<Arm>, id: TPM2_ALG_ID): Result<Algorithm> {
    if arms == [] then Err(InvalidParam)
    else if arms[0].1 == id then Ok(arms[0].0)
    else FirstMatchDecode(arms[1..], id)
  }

  /** An encoding match: the code of the first arm whose variant is `a`, if
      there is one. */
  function FirstMatchEncode(arms: seq<Arm>, a: Algorithm): Option<TPM2_ALG_ID> {
    if arms == [] then None
    else if arms[0].0 == a then Some(arms[0].1)
    else FirstMatchEncode(arms[1..], a)
  }

  /** Every arm is a registry pair. */
  predicate ArmsRegistered(arms: seq<Arm>) {
    forall k :: 0 <= k < |arms| ==> Registered(arms[k].0, arms[k].1)
  }

  /** The arms are the registry's pairs, in some order, possibly repeated. */
  predicate ArmsCoverRegistry(arms: seq<Arm>) {
    ArmsRegistered(arms) && forall a, id :: Registered(a, id) ==> (a, id) in arms
  }

  /** A chain of registry arms finds `TryFrom`'s answer when any arm has the
      code, and falls through only when none has. */
  lemma {:induction false} FirstMatchDecodeSound(arms: seq<Arm>, id: TPM2_ALG_ID)
    requires ArmsRegistered(arms)
    ensures FirstMatchDecode(arms, id).Ok? ==> FirstMatchDecode(arms, id) == TryFrom(id)
    ensures FirstMatchDecode(arms, id).Err? ==>
      FirstMatchDecode(arms, id) == Err(InvalidParam) && forall k :: 0 <= k < |arms| ==> arms[k].1 != id
  {
    if arms != [] {
      if arms[0].1 == id {
        RegistryIsGraphOfTryFrom(arms[0].0, id);
      } else {
        assert ArmsRegistered(arms[1..]) by {
          forall k | 0 <= k < |arms[1..]| ensures Registered(arms[1..][k].0, arms[1..][k].1) {
            assert arms[1..][k] == arms[k + 1];
          }
        }
        FirstMatchDecodeSound(arms[1..], id);
        if FirstMatchDecode(arms[1..], id).Err? {
          forall k | 0 <= k < |arms| ensures arms[k].1 != id {
            if k > 0 {
              assert arms[k] == arms[1..][k - 1];
            }
          }
        }
      }
    }
  }

  /** A chain of registry arms finds `From`'s answer when any arm has the
      variant, and falls through only when none has. */
  lemma {:induction false} FirstMatchEncodeSound(arms: seq<Arm>, a: Algorithm)
    requires ArmsRegistered(arms)
    ensures FirstMatchEncode(arms, a).Some? ==> FirstMatchEncode(arms, a) == Some(From(a))
    ensures FirstMatchEncode(arms, a).None? ==> forall k :: 0 <= k < |arms| ==> arms[k].0 != a
  {
    if arms != [] {
      if arms[0].0 == a {
        RegistryIsGraphOfFrom(a, arms[0].1);
      } else {
        assert ArmsRegistered(arms[1..]) by {
          forall k | 0 <= k < |arms[1..]| ensures Registered(arms[1..][k].0, arms[1..][k].1) {
            assert arms[1..][k] == arms[k + 1];
          }
        }
        FirstMatchEncodeSound(arms[1..], a);
        if FirstMatchEncode(arms[1..], a).None? {
          forall k | 0 <= k < |arms| ensures arms[k].0 != a {
            if k > 0 {
              assert arms[k] == arms[1..][k - 1];
            }
          }
        }
      }
    }
  }

  /** However the registry's pairs are ordered as arms, decoding gives the
      same result as `TryFrom`. */
  lemma DecodeIndependentOfArmOrder(arms: seq<Arm>, id: TPM2_ALG_ID)
    requires ArmsCoverRegistry(arms)
    ensures FirstMatchDecode(arms, id) == TryFrom(id)
  {
    FirstMatchDecodeSound(arms, id);
    var r := TryFrom(id);
    if r.Ok? {
      assert (r.value, id) in arms;
      var k :| 0 <= k < |arms| && arms[k] == (r.value, id);
    }
  }

  /** However the registry's pairs are ordered as arms, encoding gives the
      same result as `From`, and never falls through. */
  lemma EncodeIndependentOfArmOrder(arms: seq<Arm>, a: Algorithm)
    requires ArmsCoverRegistry(arms)
    ensures FirstMatchEncode(arms, a) == Some(From(a))
  {
    FirstMatchEncodeSound(arms, a);
    assert (a, From(a)) in arms;
    var k :| 0 <= k < |arms| && arms[k] == (a, From(a));
  }
}
