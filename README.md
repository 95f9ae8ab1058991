# Merkle's Puzzles: one puzzle

A Dafny model of the `Puzzle` class of a Java implementation of Merkle's
Puzzles key exchange. A puzzle is built from its number as follows:

1. A random DES encryption key is drawn.
2. The plaintext is assembled: 16 zero bytes, then the encoded puzzle number,
   then the bytes of a second random key (the key fragment the receiver
   eventually recovers).
3. Bytes [2, 8) of the encryption key are zero-filled, so that a solver only
   has to try 2^16 keys.
4. The plaintext is encrypted under the weakened key, and the ciphertext is
   turned into a printable cryptogram.

The accessors return the puzzle number, a copy of the key fragment and the
cryptogram.

Files:

- `wrappers.dfy` (module `Wrappers`): `Result` and `Outcome`. A Java call that
  may throw becomes a call returning one of these.
- `jdk.dfy` (module `Jdk`): the Java platform behaviour the class relies on.
  This covers `Arrays.fill` over a range, including its argument check and
  its exceptions, and an in-memory `ByteArrayOutputStream`. It also covers a
  `SecretKey`, held as its encoded bytes, where `getEncoded` returns a fresh
  copy.
- `puzzle.dfy` (module `MerklePuzzle`):
  - the constants;
  - the pure plaintext layout `Plaintext` and key weakening `Weaken`;
  - `Build`, a reference definition of the whole construction, as a value;
  - the class `Puzzle`. Its static method `Create` performs the Java
    constructor's steps and is proved to agree with `Build`. `BuildPuzzle`
    concatenates through the stream. The accessors come last.
  - `ConstructAndObserve`, a caller that constructs a puzzle and reads
    back its three accessors.

Collaborators whose code is not part of this model are parameters:

- `DES.encrypt` is a function field of `Des`.
- `CryptoLib.smallIntToByteArray`, `CryptoLib.createKey` and
  `CryptoLib.byteArrayToString` are function fields of `CryptoLib`.
- The two results of `DES.generateRandomKey` are the parameters `firstDraw`
  and `secondDraw`, in the order the constructor makes the calls.

Every collaborator above may throw. Whatever it throws ends the construction
unchanged. Every property holds for all functions in the collaborators'
places.

Notes on the code:

- The constructor draws the encryption key first (line 35) and the key
  fragment second (line 44).
- The constructor takes any Java `int` as the puzzle number and has no 16-bit
  range check of its own. Any such check belongs to `smallIntToByteArray`,
  whose code is not part of this model.
- The 2-byte number part and the 8-byte key appear only in comments (lines 40,
  43, 63-64). The lemmas take these lengths as hypotheses.

## Model

| member | source | states |
|---|---|---|
| Jdk.RangeCheck | src/Puzzle.java:50 | the fill's argument check passes exactly when 0 <= from <= to <= length; otherwise it names the exception `Arrays.fill` throws for an inverted range, a negative start or an end past the array |
| Jdk.FillRange | src/Puzzle.java:50 | after a fill, bytes in [from, to) hold the fill value, every other byte is what it was, and the length is unchanged |
| Jdk.Fill | src/Puzzle.java:50 | the in-place fill of an array: in a failed check the array is untouched; otherwise the array becomes `FillRange` of its old contents |
| Jdk.ByteArrayOutputStream.constructor | src/Puzzle.java:70 | a new stream holds no bytes |
| Jdk.ByteArrayOutputStream.Write | src/Puzzle.java:71-73 | a write appends all of its bytes to what the stream holds |
| Jdk.ByteArrayOutputStream.ToByteArray | src/Puzzle.java:74 | returns everything written to the stream so far, in the order written |
| Jdk.GetEncoded | src/Puzzle.java:49 | the key's bytes come back in a fresh array, so filling that array cannot change the key |
| MerklePuzzle.Zeros | src/Puzzle.java:38 | a new byte array of length n holds n zero bytes |
| MerklePuzzle.Plaintext | src/Puzzle.java:37-46 | the plaintext has length 16 + number part + key part; bytes [0, 16) are zero; the number part and the key part are the slices that follow, in that order |
| MerklePuzzle.Weaken | src/Puzzle.java:48-50 | weakening succeeds exactly when the key has at least 8 bytes and fails otherwise with an out-of-bounds exception at index 8; on success, bytes [2, 8) are zero, bytes [0, 2) and any beyond 8 are unchanged, and the length is kept |
| MerklePuzzle.WeakKeyOfEightBytes | src/Puzzle.java:48-50 | an 8-byte key weakens to its first two bytes followed by six zero bytes |
| MerklePuzzle.WeakenedKeysCollide | src/Puzzle.java:48-50 | two 8-byte keys weaken to the same key if and only if their first two bytes agree, so the weakened key keeps 16 bits of the drawn key |
| MerklePuzzle.Build | src/Puzzle.java:31-58 | a construction that succeeds yields a consistent state holding the given number, the first draw as the drawn encryption key and the second draw as the key fragment; a failing draw, a failing number encoding or an encryption key shorter than 8 bytes ends it with that exception, each checked in source order |
| MerklePuzzle.BuildComplete | src/Puzzle.java:31-58 | conversely, every consistent state is what the construction yields from its own number and drawn keys |
| MerklePuzzle.BuildPropagatesLateFailures | src/Puzzle.java:51-57 | an exception from key wrapping, from encryption or from the string conversion ends the construction with that same exception |
| MerklePuzzle.StandardLayout | src/Puzzle.java:37-51 | with a 2-byte number part and 8-byte keys, the plaintext is 26 bytes: 16 zero bytes, the number at [16, 18) and the key fragment, unzeroed, at [18, 26); the key handed to key wrapping is the drawn key's first two bytes and six zero bytes |
| MerklePuzzle.Puzzle.Init | src/Puzzle.java:32-57 | the object stores each computed value in its own field, and only a consistent set of values can be stored, so every puzzle object is valid |
| MerklePuzzle.Puzzle.Create | src/Puzzle.java:31-58 | the constructor's steps in source order succeed exactly when `Build` does and fail with the same exception; on success, a fresh puzzle whose fields are `Build`'s values and which is consistent |
| MerklePuzzle.Puzzle.BuildPuzzle | src/Puzzle.java:68-75 | the stream's bytes are zeros, then number part, then key part; the length is the sum; each part is its own slice of the result |
| MerklePuzzle.Puzzle.GetPuzzleNo | src/Puzzle.java:81-83 | the returned number encodes successfully, and its encoding is the plaintext slice right after the 16 zero bytes |
| MerklePuzzle.Puzzle.GetKey | src/Puzzle.java:89-91 | a fresh copy of the key fragment's bytes, which equal the unzeroed tail of the plaintext |
| MerklePuzzle.Puzzle.ToString | src/Puzzle.java:97-99 | the returned string is the printable form of the plaintext encrypted under the puzzle's encryption key |
| MerklePuzzle.ConstructAndObserve | src/Puzzle.java:31-99 | constructing a puzzle and reading its accessors fails exactly when the construction does, with the same exception; otherwise `getPuzzleNo` gives back the constructor's argument, `getKey` the second drawn key's bytes with nothing zeroed, and `toString` the construction's cryptogram |

## Left out

- DES: the cipher is a function parameter. Nothing is assumed of it, and no
  decrypt/encrypt round trip is claimed.
- Key generation: randomness and entropy cannot be stated here. The two draws
  are parameters. Nothing is claimed about their lengths or their
  independence.
- Brute-force cost: the work a solver needs is probabilistic and
  cryptographic. It is not modelled. The model states only that the weakened
  key is determined by two bytes.
- `CryptoLib` conversions: they are function parameters with no contract.
  The 2-byte number encoding and the 8-byte key length are hypotheses of
  `StandardLayout`, not facts. The rejection of numbers that need more than
  16 bits is not modelled; it would belong to `smallIntToByteArray`, whose
  code is not part of this model.
- `CryptoLib.createKey`: not assumed to keep the bytes it wraps. The
  encryption key is only known to be what key wrapping returns for the
  weakened bytes.
- Cryptogram: no decoding of it is modelled, so no encoding round trip.
- `DES` object: `new DES()` is not modelled beyond holding the `Des`
  collaborator as the `encryptor` field. An exception from `new DES()` is
  not represented.
- Java signed `byte`: modelled as `bv8` bit patterns.
- `IOException`: declared by `buildPuzzle`, but never thrown by an in-memory
  stream.
- `Puzzle.Create`: computes each step on local variables named after the
  fields and stores them all in one constructor call. The Java constructor
  assigns the fields one by one. No difference can be observed, because a
  failed construction hands out no object.
