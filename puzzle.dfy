/** One puzzle of Merkle's Puzzles key exchange. The plaintext of a puzzle is a
    block of zero bytes (the marker a solver recognises after a successful
    trial decryption), the encoded puzzle number and the bytes of a random key
    fragment. It is encrypted with a second random DES key of which only the
    first two bytes are kept, so that a solver has 2^16 keys to try. */
module MerklePuzzle {
  import opened Wrappers
  import opened Jdk

  /** A Java `int`. */
  newtype int32 = x: int | -0x8000_0000 <= x < 0x8000_0000

  /** Length of the zero block at the start of every plaintext (128 bits). */
  const NumOfZeroBytes: nat := 16
  /** The encryption key is zeroed from this offset ... */
  const StartOfZeroBits: nat := 2
  /** ... up to, not including, this offset (48 bits in all). */
  const EndOfZeroBits: nat := 8

  /** The encryption half of the DES helper class; its code is not part of this
      model, so the model holds for every function in its place. */
  datatype Des = Des(encrypt: (seq<bv8>, SecretKey) -> Result<seq<bv8>, Exception>)

  /** The conversions of the CryptoLib helper class, likewise unmodelled. */
  datatype CryptoLib = CryptoLib(
    smallIntToByteArray: int32 -> Result<seq<bv8>, Exception>,
    createKey: seq<bv8> -> Result<SecretKey, Exception>,
    byteArrayToString: seq<bv8> -> Result<string, Exception>)

  /** A new Java byte array of length `n`: every element starts at zero. */
  function Zeros(n: nat): (z: seq<bv8>)
    ensures |z| == n
    ensures forall i :: 0 <= i < n ==> z[i] == 0
  {
    seq(n, _ => 0)
  }

  /** The plaintext of a puzzle: the zero block, then the number part, then
      the key part, each recoverable from its own slice. */
  function Plaintext(numberPart: seq<bv8>, keyPart: seq<bv8>): (p: seq<bv8>)
    ensures |p| == NumOfZeroBytes + |numberPart| + |keyPart|
    ensures forall i :: 0 <= i < NumOfZeroBytes ==> p[i] == 0
    ensures p[NumOfZeroBytes..NumOfZeroBytes + |numberPart|] == numberPart
    ensures p[NumOfZeroBytes + |numberPart|..] == keyPart
  {
    Zeros(NumOfZeroBytes) + numberPart + keyPart
  }

  /** Key weakening: the bytes of an encryption key with the range
      [StartOfZeroBits, EndOfZeroBits) zero-filled. A key shorter than
      EndOfZeroBits bytes makes the fill throw instead. */
  function Weaken(key: seq<bv8>): (r: Result<seq<bv8>, Exception>)
    ensures r.Ok? <==> |key| >= EndOfZeroBits
    ensures r.Err? ==> r.error == ArrayIndexOutOfBoundsException(EndOfZeroBits)
    ensures r.Ok? ==> |r.value| == |key|
    ensures r.Ok? ==> forall i :: StartOfZeroBits <= i < EndOfZeroBits ==> r.value[i] == 0
    ensures r.Ok? ==> r.value[..StartOfZeroBits] == key[..StartOfZeroBits]
    ensures r.Ok? ==> r.value[EndOfZeroBits..] == key[EndOfZeroBits..]
  {
    match RangeCheck(|key|, StartOfZeroBits, EndOfZeroBits)
    case Fail(e) => Err(e)
    case Pass => Ok(FillRange(key, StartOfZeroBits, EndOfZeroBits, 0))
  }

  /** An eight-byte key keeps only its first two bytes: its weakened form is
      one of the 2^16 keys a solver enumerates. */
  lemma WeakKeyOfEightBytes(key: seq<bv8>)
    requires |key| == 8
    ensures Weaken(key) == Ok([key[0], key[1], 0, 0, 0, 0, 0, 0])
  {
    var w := Weaken(key).value;
    assert w[0] == key[..StartOfZeroBits][0] && w[1] == key[..StartOfZeroBits][1];
    assert w == [key[0], key[1], 0, 0, 0, 0, 0, 0];
  }

  /** Two eight-byte keys weaken to the same key exactly when they agree on
      their first two bytes: the weakened key carries 16 bits of the drawn one. */
  lemma WeakenedKeysCollide(k1: seq<bv8>, k2: seq<bv8>)
    requires |k1| == 8 && |k2| == 8
    ensures Weaken(k1) == Weaken(k2) <==> k1[..2] == k2[..2]
  {
    WeakKeyOfEightBytes(k1);
    WeakKeyOfEightBytes(k2);
    assert k1[..2] == [k1[0], k1[1]] && k2[..2] == [k2[0], k2[1]];
  }

  /** Everything a construction produces: the six fields the puzzle keeps, and
      three intermediate values it computes on the way (the drawn encryption
      key before weakening, the encoded number and the weakened key bytes). */
  datatype PuzzleState = PuzzleState(
    number: int32,
    keyPart: SecretKey,
    encryptionKey: SecretKey,
    encryptedPuzzle: seq<bv8>,
    unencryptedPuzzle: seq<bv8>,
    cryptogram: string,
    drawnKey: SecretKey,
    numberPart: seq<bv8>,
    weakenedKey: seq<bv8>)

  /** How the fields of a finished puzzle hang together, given the
      collaborators that computed them. */
  predicate Consistent(v: PuzzleState, des: Des, lib: CryptoLib) {
    && lib.smallIntToByteArray(v.number) == Ok(v.numberPart)
    && v.unencryptedPuzzle == Plaintext(v.numberPart, v.keyPart.encoded)
    && Weaken(v.drawnKey.encoded) == Ok(v.weakenedKey)
    && lib.createKey(v.weakenedKey) == Ok(v.encryptionKey)
    && des.encrypt(v.unencryptedPuzzle, v.encryptionKey) == Ok(v.encryptedPuzzle)
    && lib.byteArrayToString(v.encryptedPuzzle) == Ok(v.cryptogram)
  }

  /** The construction of a puzzle as one value: `firstDraw` and `secondDraw`
      are the outcomes of the two calls of the random key generator, in the
      order they are made. The first exception ends the construction. */
  function Build(number: int32, des: Des, lib: CryptoLib,
                 firstDraw: Result<SecretKey, Exception>,
                 secondDraw: Result<SecretKey, Exception>): (r: Result<PuzzleState, Exception>)
    ensures r.Ok? ==> Consistent(r.value, des, lib)
    ensures r.Ok? ==> r.value.number == number
    ensures r.Ok? ==> firstDraw == Ok(r.value.drawnKey) && secondDraw == Ok(r.value.keyPart)
    ensures firstDraw.Err? ==> r == Err(firstDraw.error)
    ensures firstDraw.Ok? && lib.smallIntToByteArray(number).Err? ==>
              r == Err(lib.smallIntToByteArray(number).error)
    ensures firstDraw.Ok? && lib.smallIntToByteArray(number).Ok? && secondDraw.Err? ==>
              r == Err(secondDraw.error)
    ensures firstDraw.Ok? && lib.smallIntToByteArray(number).Ok? && secondDraw.Ok? &&
            |firstDraw.value.encoded| < EndOfZeroBits ==>
              r == Err(ArrayIndexOutOfBoundsException(EndOfZeroBits))
  {
    var drawn :- firstDraw;
    var numberPart :- lib.smallIntToByteArray(number);
    var keyPart :- secondDraw;
    var plaintext := Plaintext(numberPart, keyPart.encoded);
    var weakened :- Weaken(drawn.encoded);
    var encryptionKey :- lib.createKey(weakened);
    var ciphertext :- des.encrypt(plaintext, encryptionKey);
    var cryptogram :- lib.byteArrayToString(ciphertext);
    Ok(PuzzleState(number, keyPart, encryptionKey, ciphertext, plaintext, cryptogram,
                   drawn, numberPart, weakened))
  }

  /** Conversely, every consistent state is what the construction yields from
      its own number and drawn keys. */
  lemma BuildComplete(v: PuzzleState, des: Des, lib: CryptoLib)
    requires Consistent(v, des, lib)
    ensures Build(v.number, des, lib, Ok(v.drawnKey), Ok(v.keyPart)) == Ok(v)
  {
  }

  /** An exception from key wrapping, encryption or the string conversion ends
      the construction with that same exception. */
  lemma BuildPropagatesLateFailures(number: int32, des: Des, lib: CryptoLib,
                                    drawn: SecretKey, keyPart: SecretKey,
                                    numberPart: seq<bv8>, weakened: seq<bv8>,
                                    key: SecretKey, ciphertext: seq<bv8>)
    requires lib.smallIntToByteArray(number) == Ok(numberPart)
    requires Weaken(drawn.encoded) == Ok(weakened)
    ensures lib.createKey(weakened).Err? ==>
              Build(number, des, lib, Ok(drawn), Ok(keyPart)) == Err(lib.createKey(weakened).error)
    ensures lib.createKey(weakened) == Ok(key) &&
            des.encrypt(Plaintext(numberPart, keyPart.encoded), key).Err? ==>
              Build(number, des, lib, Ok(drawn), Ok(keyPart))
                == Err(des.encrypt(Plaintext(numberPart, keyPart.encoded), key).error)
    ensures lib.createKey(weakened) == Ok(key) &&
            des.encrypt(Plaintext(numberPart, keyPart.encoded), key) == Ok(ciphertext) &&
            lib.byteArrayToString(ciphertext).Err? ==>
              Build(number, des, lib, Ok(drawn), Ok(keyPart)) == Err(lib.byteArrayToString(ciphertext).error)
  {
  }

  /** With a two-byte number part and an eight-byte key part, the sizes the
      collaborators are documented to produce, the plaintext is 26 bytes:
      16 zero bytes, the number at [16, 18) and the key fragment, as drawn and
      not zeroed, at [18, 26). An eight-byte drawn key is used with its bytes
      [2, 8) zeroed and its bytes [0, 2) kept. */
  lemma StandardLayout(v: PuzzleState, des: Des, lib: CryptoLib)
    requires Consistent(v, des, lib)
    requires |v.numberPart| == 2 && |v.keyPart.encoded| == 8 && |v.drawnKey.encoded| == 8
    ensures |v.unencryptedPuzzle| == 26
    ensures forall i :: 0 <= i < 16 ==> v.unencryptedPuzzle[i] == 0
    ensures v.unencryptedPuzzle[16..18] == v.numberPart
    ensures v.unencryptedPuzzle[18..26] == v.keyPart.encoded
    ensures v.weakenedKey == v.drawnKey.encoded[..2] + [0, 0, 0, 0, 0, 0]
  {
    WeakKeyOfEightBytes(v.drawnKey.encoded);
  }

  /** A puzzle object. Its fields are those of the Java class, which are set
      once by the constructor and never reassigned; the ghost fields remember
      the conversion library and the intermediate values of the construction,
      which the object does not keep. */
  class Puzzle {
    const number: int32
    const keyPart: SecretKey
    const encryptionKey: SecretKey
    const encryptedPuzzle: seq<bv8>
    const unencryptedPuzzle: seq<bv8>
    const cryptogram: string
    const encryptor: Des
    ghost const lib: CryptoLib
    ghost const drawnKey: SecretKey
    ghost const numberPart: seq<bv8>
    ghost const weakenedKey: seq<bv8>

    ghost function Value(): PuzzleState
    {
      PuzzleState(number, keyPart, encryptionKey, encryptedPuzzle, unencryptedPuzzle,
                  cryptogram, drawnKey, numberPart, weakenedKey)
    }

    ghost predicate Valid()
    {
      Consistent(Value(), encryptor, lib)
    }

    /** Stores the values a construction has computed, one per field; only a
        consistent set of values makes a puzzle. */
    constructor Init(v: PuzzleState, encryptor: Des, ghost lib: CryptoLib)
      requires Consistent(v, encryptor, lib)
      ensures Value() == v && this.encryptor == encryptor && this.lib == lib
      ensures Valid()
    {
      number := v.number;
      this.encryptor := encryptor;
      this.lib := lib;
      drawnKey := v.drawnKey;
      numberPart := v.numberPart;
      keyPart := v.keyPart;
      unencryptedPuzzle := v.unencryptedPuzzle;
      weakenedKey := v.weakenedKey;
      encryptionKey := v.encryptionKey;
      encryptedPuzzle := v.encryptedPuzzle;
      cryptogram := v.cryptogram;
    }

    /** The Java constructor `Puzzle(int)`. Each step is the source's, in the
        source's order, on local variables named after the fields; an exception
        ends the construction before any object is handed out. */
    static method Create(number: int32, encryptor: Des, lib: CryptoLib,
                         firstDraw: Result<SecretKey, Exception>,
                         secondDraw: Result<SecretKey, Exception>) returns (r: Result<Puzzle, Exception>)
      ensures r.Ok? <==> Build(number, encryptor, lib, firstDraw, secondDraw).Ok?
      ensures r.Err? ==> r.error == Build(number, encryptor, lib, firstDraw, secondDraw).error
      ensures r.Ok? ==> fresh(r.value) && r.value.Valid()
      ensures r.Ok? ==> r.value.encryptor == encryptor && r.value.lib == lib
      ensures r.Ok? ==> r.value.Value() == Build(number, encryptor, lib, firstDraw, secondDraw).value
    {
      if firstDraw.Err? {
        return Err(firstDraw.error);
      }
      var encryptionKey := firstDraw.value;

      var zeros := new bv8[NumOfZeroBytes](_ => 0);
      assert zeros[..] == Zeros(NumOfZeroBytes);
      var numberPart := lib.smallIntToByteArray(number);
      if numberPart.Err? {
        return Err(numberPart.error);
      }

      if secondDraw.Err? {
        return Err(secondDraw.error);
      }
      var keyPart := secondDraw.value;
      var keyBytes := GetEncoded(keyPart);
      var unencryptedPuzzle := BuildPuzzle(zeros[..], numberPart.value, keyBytes[..]);

      var encryptKey := GetEncoded(encryptionKey);
      :- Fill(encryptKey, StartOfZeroBits, EndOfZeroBits, 0);
      var key := lib.createKey(encryptKey[..]);
      if key.Err? {
        return Err(key.error);
      }
      encryptionKey := key.value;

      var encryptedPuzzle := encryptor.encrypt(unencryptedPuzzle, encryptionKey);
      if encryptedPuzzle.Err? {
        return Err(encryptedPuzzle.error);
      }

      var cryptogram := lib.byteArrayToString(encryptedPuzzle.value);
      if cryptogram.Err? {
        return Err(cryptogram.error);
      }
      var p := new Puzzle.Init(PuzzleState(number, keyPart, encryptionKey, encryptedPuzzle.value,
                                           unencryptedPuzzle, cryptogram.value,
                                           firstDraw.value, numberPart.value, encryptKey[..]),
                               encryptor, lib);
      return Ok(p);
    }

    /** `buildPuzzle`: the three parts written one after another to an
        in-memory stream; each part can be read back from its own slice. */
    static method BuildPuzzle(zeros: seq<bv8>, numberPart: seq<bv8>, keyPart: seq<bv8>) returns (r: seq<bv8>)
      ensures r == zeros + numberPart + keyPart
      ensures |r| == |zeros| + |numberPart| + |keyPart|
      ensures r[..|zeros|] == zeros
      ensures r[|zeros|..|zeros| + |numberPart|] == numberPart
      ensures r[|zeros| + |numberPart|..] == keyPart
    {
      var stream := new ByteArrayOutputStream();
      stream.Write(zeros);
      stream.Write(numberPart);
      stream.Write(keyPart);
      r := stream.ToByteArray();
    }

    /** `getPuzzleNo`: the number whose encoding follows the zero block. */
    function GetPuzzleNo(): (n: int32)
      requires Valid()
      ensures lib.smallIntToByteArray(n).Ok?
      ensures NumOfZeroBytes + |lib.smallIntToByteArray(n).value| <= |unencryptedPuzzle|
      ensures unencryptedPuzzle[NumOfZeroBytes..NumOfZeroBytes + |lib.smallIntToByteArray(n).value|]
                == lib.smallIntToByteArray(n).value
    {
      number
    }

    /** `getKey`: a fresh copy of the key fragment, which is the unweakened
        tail of the plaintext. */
    method GetKey() returns (key: array<bv8>)
      requires Valid()
      ensures fresh(key)
      ensures key[..] == keyPart.encoded
      ensures key.Length <= |unencryptedPuzzle|
      ensures unencryptedPuzzle[|unencryptedPuzzle| - key.Length..] == key[..]
    {
      key := GetEncoded(keyPart);
    }

    /** `toString`: the cryptogram, the printable form of the plaintext
        encrypted under the weakened key. */
    function ToString(): (s: string)
      requires Valid()
      ensures encryptor.encrypt(unencryptedPuzzle, encryptionKey).Ok?
      ensures lib.byteArrayToString(encryptor.encrypt(unencryptedPuzzle, encryptionKey).value) == Ok(s)
    {
      cryptogram
    }
  }

  /** What a caller of the class observes: the three accessors of a freshly
      constructed puzzle. */
  datatype Observed = Observed(number: int32, key: seq<bv8>, cryptogram: string)

  /** `new Puzzle(number)` followed by `getPuzzleNo()`, `getKey()` and
      `toString()`. The number read back is the constructor's argument, the
      key read back is the second draw with none of its bytes zeroed, and the
      string is the printable form of the plaintext encrypted under the
      weakened key. */
  method ConstructAndObserve(number: int32, encryptor: Des, lib: CryptoLib,
                             firstDraw: Result<SecretKey, Exception>,
                             secondDraw: Result<SecretKey, Exception>) returns (r: Result<Observed, Exception>)
    ensures r.Ok? <==> Build(number, encryptor, lib, firstDraw, secondDraw).Ok?
    ensures r.Err? ==> r.error == Build(number, encryptor, lib, firstDraw, secondDraw).error
    ensures r.Ok? ==> r.value.number == number
    ensures r.Ok? ==> secondDraw.Ok? && r.value.key == secondDraw.value.encoded
    ensures r.Ok? ==> r.value.cryptogram == Build(number, encryptor, lib, firstDraw, secondDraw).value.cryptogram
  {
    var p :- Puzzle.Create(number, encryptor, lib, firstDraw, secondDraw);
    var key := p.GetKey();
    return Ok(Observed(p.GetPuzzleNo(), key[..], p.ToString()));
  }
}
