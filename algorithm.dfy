/** The TPM algorithm identifiers known to the crate and the two conversions
    between them and their 16-bit wire codes. */
module Algorithms {
  import opened Errors
  import opened Tss

  /** The closed set of algorithm identifiers. `Sha1` is the one name for
      `TPM2_ALG_SHA1`; the older name "SHA" is not a separate variant. */
  datatype Algorithm =
    | Error
    | Rsa
    | Tdes
    | Sha1
    | Hmac
    | Aes
    | Mgf1
    | KeyedHash
    | Xor
    | Sha256
    | Sha384
    | Sha512
    | Null
    | Sm3_256
    | Sm4
    | RsaSsa
    | RsaEs
    | RsaPss
    | Oaep
    | EcDsa
    | EcDh
    | EcDaa
    | Sm2
    | EcSchnorr
    | EcMqv
    | Kdf1Sp800_56a
    | Kdf2
    | Kdf1Sp800_108
    | Ecc
    | SymCipher
    | Camellia
    | Cmac
    | Ctr
    | Sha3_256
    | Sha3_384
    | Sha3_512
    | Ofb
    | Cbc
    | Cfb
    | Ecb

  /** The number of variants. */
  const VariantCount: nat := 40

  /** The variant at position `i` of the declaration. */
  function VariantAt(i: nat): Algorithm
    requires i < VariantCount
  {
    if i == 0 then Error
    else if i == 1 then Rsa
    else if i == 2 then Tdes
    else if i == 3 then Sha1
    else if i == 4 then Hmac
    else if i == 5 then Aes
    else if i == 6 then Mgf1
    else if i == 7 then KeyedHash
    else if i == 8 then Xor
    else if i == 9 then Sha256
    else if i == 10 then Sha384
    else if i == 11 then Sha512
    else if i == 12 then Null
    else if i == 13 then Sm3_256
    else if i == 14 then Sm4
    else if i == 15 then RsaSsa
    else if i == 16 then RsaEs
    else if i == 17 then RsaPss
    else if i == 18 then Oaep
    else if i == 19 then EcDsa
    else if i == 20 then EcDh
    else if i == 21 then EcDaa
    else if i == 22 then Sm2
    else if i == 23 then EcSchnorr
    else if i == 24 then EcMqv
    else if i == 25 then Kdf1Sp800_56a
    else if i == 26 then Kdf2
    else if i == 27 then Kdf1Sp800_108
    else if i == 28 then Ecc
    else if i == 29 then SymCipher
    else if i == 30 then Camellia
    else if i == 31 then Cmac
    else if i == 32 then Ctr
    else if i == 33 then Sha3_256
    else if i == 34 then Sha3_384
    else if i == 35 then Sha3_512
    else if i == 36 then Ofb
    else if i == 37 then Cbc
    else if i == 38 then Cfb
    else Ecb
  }

  /** The position of a variant in the declaration, which is also its
      implicit enum discriminant. */
  function Discriminant(a: Algorithm): (i: nat)
    ensures i < VariantCount && VariantAt(i) == a
  {
    match a
    case Error => 0
    case Rsa => 1
    case Tdes => 2
    case Sha1 => 3
    case Hmac => 4
    case Aes => 5
    case Mgf1 => 6
    case KeyedHash => 7
    case Xor => 8
    case Sha256 => 9
    case Sha384 => 10
    case Sha512 => 11
    case Null => 12
    case Sm3_256 => 13
    case Sm4 => 14
    case RsaSsa => 15
    case RsaEs => 16
    case RsaPss => 17
    case Oaep => 18
    case EcDsa => 19
    case EcDh => 20
    case EcDaa => 21
    case Sm2 => 22
    case EcSchnorr => 23
    case EcMqv => 24
    case Kdf1Sp800_56a => 25
    case Kdf2 => 26
    case Kdf1Sp800_108 => 27
    case Ecc => 28
    case SymCipher => 29
    case Camellia => 30
    case Cmac => 31
    case Ctr => 32
    case Sha3_256 => 33
    case Sha3_384 => 34
    case Sha3_512 => 35
    case Ofb => 36
    case Cbc => 37
    case Cfb => 38
    case Ecb => 39
  }

  /** Every variant, in declaration order. */
  const AllAlgorithms: seq<Algorithm> := seq(VariantCount, i requires 0 <= i < VariantCount => VariantAt(i))

  /** The correspondence between variants and wire codes as an unordered
      relation, listed here in wire-code order. Both conversions are
      characterised against it, so neither depends on the order of its arms. */
  const Registry: set<(Algorithm, TPM2_ALG_ID)> := {
    (Error, TPM2_ALG_ERROR),
    (Rsa, TPM2_ALG_RSA),
    (Tdes, TPM2_ALG_TDES),
    (Sha1, TPM2_ALG_SHA1),
    (Hmac, TPM2_ALG_HMAC),
    (Aes, TPM2_ALG_AES),
    (Mgf1, TPM2_ALG_MGF1),
    (KeyedHash, TPM2_ALG_KEYEDHASH),
    (Xor, TPM2_ALG_XOR),
    (Sha256, TPM2_ALG_SHA256),
    (Sha384, TPM2_ALG_SHA384),
    (Sha512, TPM2_ALG_SHA512),
    (Null, TPM2_ALG_NULL),
    (Sm3_256, TPM2_ALG_SM3_256),
    (Sm4, TPM2_ALG_SM4),
    (RsaSsa, TPM2_ALG_RSASSA),
    (RsaEs, TPM2_ALG_RSAES),
    (RsaPss, TPM2_ALG_RSAPSS),
    (Oaep, TPM2_ALG_OAEP),
    (EcDsa, TPM2_ALG_ECDSA),
    (EcDh, TPM2_ALG_ECDH),
    (EcDaa, TPM2_ALG_ECDAA),
    (Sm2, TPM2_ALG_SM2),
    (EcSchnorr, TPM2_ALG_ECSCHNORR),
    (EcMqv, TPM2_ALG_ECMQV),
    (Kdf1Sp800_56a, TPM2_ALG_KDF1_SP800_56A),
    (Kdf2, TPM2_ALG_KDF2),
    (Kdf1Sp800_108, TPM2_ALG_KDF1_SP800_108),
    (Ecc, TPM2_ALG_ECC),
    (SymCipher, TPM2_ALG_SYMCIPHER),
    (Camellia, TPM2_ALG_CAMELLIA),
    (Sha3_256, TPM2_ALG_SHA3_256),
    (Sha3_384, TPM2_ALG_SHA3_384),
    (Sha3_512, TPM2_ALG_SHA3_512),
    (Cmac, TPM2_ALG_CMAC),
    (Ctr, TPM2_ALG_CTR),
    (Ofb, TPM2_ALG_OFB),
    (Cbc, TPM2_ALG_CBC),
    (Cfb, TPM2_ALG_CFB),
    (Ecb, TPM2_ALG_ECB)
  }

  /** The registry pairs `algorithm` with `id`. */
  predicate Registered(algorithm: Algorithm, id: TPM2_ALG_ID) {
    (algorithm, id) in Registry
  }

  /** Decodes a wire code. The arms are tested in the order of the arms of
      `try_from` in `algorithm.rs`; a code that no arm names fails with
      `InvalidParam` (`try_from` also logs it). The error kind needs no
      clause of its own: `InvalidParam` is the only kind the type holds. */
  function TryFrom(id: TPM2_ALG_ID): (r: Result<Algorithm>)
    ensures r.Ok? ==> Registered(r.value, id)
    ensures r.Err? ==> forall a :: !Registered(a, id)
  {
    if id == TPM2_ALG_AES then Ok(Aes)
    else if id == TPM2_ALG_CAMELLIA then Ok(Camellia)
    else if id == TPM2_ALG_CBC then Ok(Cbc)
    else if id == TPM2_ALG_CFB then Ok(Cfb)
    else if id == TPM2_ALG_CMAC then Ok(Cmac)
    else if id == TPM2_ALG_CTR then Ok(Ctr)
    else if id == TPM2_ALG_ECB then Ok(Ecb)
    else if id == TPM2_ALG_ECC then Ok(Ecc)
    else if id == TPM2_ALG_ECDAA then Ok(EcDaa)
    else if id == TPM2_ALG_ECDH then Ok(EcDh)
    else if id == TPM2_ALG_ECDSA then Ok(EcDsa)
    else if id == TPM2_ALG_ECMQV then Ok(EcMqv)
    else if id == TPM2_ALG_ECSCHNORR then Ok(EcSchnorr)
    else if id == TPM2_ALG_ERROR then Ok(Error)
    else if id == TPM2_ALG_HMAC then Ok(Hmac)
    else if id == TPM2_ALG_KDF1_SP800_108 then Ok(Kdf1Sp800_108)
    else if id == TPM2_ALG_KDF1_SP800_56A then Ok(Kdf1Sp800_56a)
    else if id == TPM2_ALG_KDF2 then Ok(Kdf2)
    else if id == TPM2_ALG_KEYEDHASH then Ok(KeyedHash)
    else if id == TPM2_ALG_MGF1 then Ok(Mgf1)
    else if id == TPM2_ALG_NULL then Ok(Null)
    else if id == TPM2_ALG_OAEP then Ok(Oaep)
    else if id == TPM2_ALG_OFB then Ok(Ofb)
    else if id == TPM2_ALG_RSA then Ok(Rsa)
    else if id == TPM2_ALG_RSAES then Ok(RsaEs)
    else if id == TPM2_ALG_RSAPSS then Ok(RsaPss)
    else if id == TPM2_ALG_RSASSA then Ok(RsaSsa)
    else if id == TPM2_ALG_SHA1 then Ok(Sha1)
    else if id == TPM2_ALG_SHA256 then Ok(Sha256)
    else if id == TPM2_ALG_SHA384 then Ok(Sha384)
    else if id == TPM2_ALG_SHA3_256 then Ok(Sha3_256)
    else if id == TPM2_ALG_SHA3_384 then Ok(Sha3_384)
    else if id == TPM2_ALG_SHA3_512 then Ok(Sha3_512)
    else if id == TPM2_ALG_SHA512 then Ok(Sha512)
    else if id == TPM2_ALG_SM2 then Ok(Sm2)
    else if id == TPM2_ALG_SM3_256 then Ok(Sm3_256)
    else if id == TPM2_ALG_SM4 then Ok(Sm4)
    else if id == TPM2_ALG_SYMCIPHER then Ok(SymCipher)
    else if id == TPM2_ALG_TDES then Ok(Tdes)
    else if id == TPM2_ALG_XOR then Ok(Xor)
    else Err(InvalidParam)
  }

  /** Encodes a variant as its wire code; every variant has one. The arms
      follow the order of the arms of `from` in `algorithm.rs`. */
  function From(algorithm: Algorithm): (id: TPM2_ALG_ID)
    ensures Registered(algorithm, id)
  {
    match algorithm
    case Aes => TPM2_ALG_AES
    case Camellia => TPM2_ALG_CAMELLIA
    case Cbc => TPM2_ALG_CBC
    case Cfb => TPM2_ALG_CFB
    case Ctr => TPM2_ALG_CTR
    case Ecb => TPM2_ALG_ECB
    case Ecc => TPM2_ALG_ECC
    case EcDaa => TPM2_ALG_ECDAA
    case EcDh => TPM2_ALG_ECDH
    case EcDsa => TPM2_ALG_ECDSA
    case EcMqv => TPM2_ALG_ECMQV
    case EcSchnorr => TPM2_ALG_ECSCHNORR
    case Error => TPM2_ALG_ERROR
    case Hmac => TPM2_ALG_HMAC
    case Kdf1Sp800_108 => TPM2_ALG_KDF1_SP800_108
    case Kdf1Sp800_56a => TPM2_ALG_KDF1_SP800_56A
    case Kdf2 => TPM2_ALG_KDF2
    case KeyedHash => TPM2_ALG_KEYEDHASH
    case Mgf1 => TPM2_ALG_MGF1
    case Null => TPM2_ALG_NULL
    case Oaep => TPM2_ALG_OAEP
    case Ofb => TPM2_ALG_OFB
    case Rsa => TPM2_ALG_RSA
    case RsaEs => TPM2_ALG_RSAES
    case RsaPss => TPM2_ALG_RSAPSS
    case RsaSsa => TPM2_ALG_RSASSA
    case Sha1 => TPM2_ALG_SHA1
    case Sha256 => TPM2_ALG_SHA256
    case Sha384 => TPM2_ALG_SHA384
    case Sha3_256 => TPM2_ALG_SHA3_256
    case Sha3_384 => TPM2_ALG_SHA3_384
    case Sha3_512 => TPM2_ALG_SHA3_512
    case Sha512 => TPM2_ALG_SHA512
    case Sm2 => TPM2_ALG_SM2
    case Sm3_256 => TPM2_ALG_SM3_256
    case Sm4 => TPM2_ALG_SM4
    case SymCipher => TPM2_ALG_SYMCIPHER
    case Tdes => TPM2_ALG_TDES
    case Xor => TPM2_ALG_XOR
    case Cmac => TPM2_ALG_CMAC
  }
}
