# Sotoportego's core, modelled and proved in Dafny

Sotoportego carries its own ciphers, hashes, WireGuard data plane and route handling inside one
VPN daemon. Most of that code changes buffers, tables and fields step by step. This project
models it in that same form and proves what each piece is for:

| files | part of the daemon |
|---|---|
| `Bits`, `BitLaws`, `Numbers`, `Words` | bitwise operations, little-endian numbers, 32-bit words and their byte order |
| `Poly1305`, `Salsa20`, `NaClBox` | the NaCl box: authenticator over seventeen byte limbs, transposing Salsa20 core, XSalsa20 stream, seal and open in one buffer |
| `Blake2s`, `Kdf` | the streaming hash with its deferred last block, keyed MAC, HMAC and the key derivation that overwrites its own input |
| `ReplayWindow`, `Transport`, `Handshake`, `WireGuardBackend` | the WireGuard data plane: replay ring, message format, Noise_IKpsk2 initiator and rekey |
| `Authentication` | what a handshake that succeeds proves about the other end |
| `TransportRuns`, `ReaderLoop` | whole runs: two ends and a hostile network, and the reader loop |
| `Routing`, `OpenVpnRoutes`, `WireGuardRoutes` | routing table, session file and resolver file, with crashes between any two effects |
| `Reconnect`, `LiveBackends` | the daemon's message machine: backend choice, retry budget, countdown, cancellation; which backends are up |
| `Management`, `Base64` | the incremental line protocol and its sender; the two base64 decoders |

Each part comes as a specification (mathematical functions and lemmas, in a module ending in
`Spec` where it is more than a few definitions) and as classes and methods over arrays and
fields, whose contracts tie every result and every new state to that specification. The files
`CryptoForms`, `HashForms`, `HandshakeForms`, `RouteForms` and `DaemonForms` prove the
specifications' own definitions equal to what the standards and the code say in elementary
terms: masks, digits, bytes at positions, characters, numbers.

Bytes, 32-bit and 64-bit words are bounded integers. Every wrap-around of the code is written
out as a remainder, so where an addition or product has none the bound is proved. The bitwise
operations are defined by recursion on binary digits.

## What the proofs found

The model follows the code also where the code does less than its surroundings suggest; the
exact conditions are theorems.

- The retry budget is reset when CONNECTED arrives, but a countdown that is running then is not
  stopped (`src/server/SotoportegoServer.cpp:856-858`). After an accepted user connect at most 135
  seconds are counted, and 135 can be (`ReconnectSpec.BoundedAfterConnect`). After a CONNECTED
  more than 135 can be counted if and only if a countdown was running when it arrived, and then
  135 plus the rest of that countdown is the exact maximum (`ReconnectSpec.OverBudgetExactly`).
  A run from the start counts 195 (`ReconnectSpec.OverBudgetRun`).
- The OpenVPN session file is written after the routes have changed, writing it truncates it
  first, and the daemon goes on when the write fails. A crash between handlers is undone by
  recovery if and only if the file holds what is installed
  (`OpenVpnRoutesSpec.BoundaryCrashRecovers`). A crash inside the first CONNECTED handler is undone
  only before the first effect and after a complete write
  (`OpenVpnRoutesSpec.CrashDuringInstall`). A crash inside a refresh is undone exactly when the
  file can be read and names the tunnel route that is there, or none is; with a file that was in
  step, that fails between adding the new route and completing the new file
  (`OpenVpnRoutesSpec.CrashDuringRefresh`). With a file in step and no clashing route a crash
  inside the removal is always undone, and the exact points without one are in
  `OpenVpnRoutesSpec.CrashDuringRemove`. A crash inside recovery itself, however often, makes no
  difference (`OpenVpnRoutesSpec.RecoveryIsReplayable`).
- The resolver file is restored exactly when there was one, or the tunnel never wrote its own:
  with no original there is nothing to move aside, and the tunnel's file stays
  (`WireGuardRoutesSpec.RecoveryRestoresOriginal`).
- `OpenVPNManagement::_Escape` leaves line breaks alone, unlike `escape_arg`: its output is a
  single line exactly when its input is (`ManagementSpec.QuotesKeepBreaks`). The commands built
  with `escape_arg` are one line exactly when name and realm, which are not escaped, have no line
  break (`ManagementSpec.CommandIsOneLine`).
- A failed handshake may already have replaced the peer's index. It never touches the keys, the
  send counter or the replay window (`WireGuardBackend.Backend.Rekey`). The index in a response is
  under no tag and its macs are not checked: when the first response to arrive is altered outside
  bytes 12 to 59, the handshake still succeeds, with the right keys, exactly when bytes 8 to 11
  are this attempt's index, and it has the responder's index exactly when bytes 4 to 7 are
  unaltered (`WireGuardBackend.AlteredResponse`).
- The send counter has no limit of its own. Two messages of one session share a counter exactly
  when the number of messages sealed from the one to the other is a multiple of 2^64
  (`TransportRuns.NoncesAreUnique`).
- Padding and trimming return a packet exactly when its own header tells its size, or no padding
  was added (`Transport.TrimRecovers`).
- The bounded base64 decoder accepts a lone leftover group, the other one does not; where
  the bounded one succeeds they differ exactly on the texts whose characters before the padding are one more than a multiple of four
  (`Base64Spec.LoneGroupExactly`, `Base64Spec.LoneCharacter`).
- Two backends can be live. The daemon asks its active backend for its state before it connects
  another one (`src/server/SotoportegoServer.cpp:278-288`), and a backend can be in ERROR while
  its worker or process still runs: openvpn after a failed authentication or a fatal message
  (`src/backend/OpenVPNBackend.cpp:1076-1084`, `LiveBackends.FailedLoginOverlaps`), Tailscale
  after a refused Connect (`src/backend/tailscale/TailscaleBackend.cpp:92-95`,
  `LiveBackends.RefusalOverlaps`). At most one backend runs or is live in every state of a run if
  and only if no Connect that brings a backend up is made while another one still runs
  (`LiveBackends.OneUpExactly`). If every backend leaves DISCONNECTED and ERROR only through its
  own Connect, at most one is live, and it is the active one (`ReconnectSpec.OneLiveBackend`).

## Assumptions

- X25519 and ChaCha20-Poly1305 come from OpenSSL and are an abstract `Suite`: both ends of a
  Diffie-Hellman exchange agree, also on failing; what was sealed opens; a tag takes 16 bytes
  (`Handshake.Lawful`). Hash, MAC and key derivation in the suite are tied to the BLAKE2s ones
  proved here (`WireGuardBackend.Concrete`).
- In the two-ended runs what opens under the receiver's key was sealed with that key and counter
  by the sender of the same session (`TransportRuns.Authentic`). Session number n of a direction
  has its own key.
- A backend is live only while something of it runs, only what runs reports, and a Connect that
  fails does not make its backend live (`ReconnectSpec.Possible`). Status messages may be stale:
  any state may be reported at any time.
- `Authentication.SuccessIsAnAnswer` takes from the AEAD that the tag that opened was made by one
  of the responders' runs, and names the steps at which the two runs must not collide.
- The OpenVPN tun slot is deleted and created anew before a connect, so no default route names
  it; a new connect happens only after the cleanup. Each handler runs without a log line being
  scanned in the middle of it.
- Whatever depends on the system - randomness, clocks, whether memory, a socket, a timer or a
  file could be had - is a parameter that may take any value.

## Model

| member | source | states |
|---|---|---|
| Words.L32 | src/backend/tailscale/NaClBox.cpp:27-31 | shift, shift and or is the rotation of a 32-bit word |
| Words.RotateIsMultiplication | src/backend/tailscale/NaClBox.cpp:27-31 | a rotation by c is multiplication by 2^c modulo 2^32 - 1, with the exact quotient |
| Words.Ld32 | src/backend/tailscale/NaClBox.cpp:34-41 | three shifts and ors give the little-endian number of the four bytes |
| Words.St32 | src/backend/tailscale/NaClBox.cpp:44-51 | exactly four bytes change, to the little-endian digits of the word |
| BitLaws.BitwiseLogic | src/backend/tailscale/NaClBox.cpp:54-61 | and, or and xor decide every bit by itself |
| BitLaws.BitOfRotl | src/backend/tailscale/NaClBox.cpp:27-31 | bit i of a word rotated left comes from c places below, round the end |
| BitLaws.BitOfRotr | src/backend/WireGuardCrypto.cpp:42-46 | bit i of a word rotated right comes from c places above |
| BitLaws.RightRotation | src/backend/WireGuardCrypto.cpp:42-46 | two shifts and an or are the rotation to the right |
| BitLaws.WordOperations | src/backend/tailscale/NaClBox.cpp:94-108 | additions and subtractions of words are those of numbers modulo 2^32 |
| BitLaws.ByteOf | src/backend/tailscale/NaClBox.cpp:44-51 | byte i of a little-endian encoding is digit i in base 256 |
| Poly1305.Add1305 | src/backend/tailscale/NaClBox.cpp:176-185 | limb-wise addition is addition of the numbers modulo 2^136, result limbs are bytes, and no intermediate sum wraps |
| Poly1305.LoadMultiplier | src/backend/tailscale/NaClBox.cpp:193-198 | the masked limbs are the clamped multiplier of section 2.5 of RFC 8439 |
| Poly1305.LoadBlock | src/backend/tailscale/NaClBox.cpp:201-207 | the limbs of a full or partial last block are its number with the extra one bit above it |
| Poly1305.ShiftOnce | src/backend/tailscale/NaClBox.cpp:209-213 | why a limb that wraps is weighted 320: one more place is a factor 256, less a multiple of 64p |
| Poly1305.ProductValue | src/backend/tailscale/NaClBox.cpp:209-213 | the wrapped limb convolution has the value of the integer product, up to a multiple of p |
| Poly1305.Multiply | src/backend/tailscale/NaClBox.cpp:209-215 | the double loop multiplies modulo p and keeps every partial sum below 2^32 |
| Poly1305.CarryPass | src/backend/tailscale/NaClBox.cpp:216-231 | one carry pass preserves the value, leaves byte limbs, and its carry stays small enough for the second pass |
| Poly1305.Squeeze | src/backend/tailscale/NaClBox.cpp:216-231 | folding what lies above 2^130 at weight 5 changes the value by a multiple of p and leaves it below 2p |
| Poly1305.AddAndMultiply | src/backend/tailscale/NaClBox.cpp:208-231 | one block takes the accumulator, modulo p, through one round of RFC 8439 |
| Poly1305.Accumulate | src/backend/tailscale/NaClBox.cpp:200-232 | for every length, empty and partial last block included, the loop holds the RFC's accumulator modulo p |
| Poly1305.TopLimbTells | src/backend/tailscale/NaClBox.cpp:236-237 | for a value below 2p, bit 7 of the top limb after adding 2^136 - p says exactly whether the value was below p |
| Poly1305.MaskFromTopBit | src/backend/tailscale/NaClBox.cpp:237 | the one negation that wraps on purpose gives all zeros or all ones |
| Poly1305.FinalReduce | src/backend/tailscale/NaClBox.cpp:234-239 | the branch-free subtraction leaves the value modulo p |
| Poly1305.Finish | src/backend/tailscale/NaClBox.cpp:241-246 | the stored bytes are the accumulator plus the second key half modulo 2^128, nothing else changes |
| Poly1305.OneTimeAuth | src/backend/tailscale/NaClBox.cpp:188-247 | for every message, length and key the sixteen bytes written are the tag of section 2.5 of RFC 8439, also when message, key and tag share a buffer |
| CryptoForms.ClampIsMask | src/backend/tailscale/NaClBox.cpp:193-198 | for every key the multiplier is the first half of the key under the mask of section 2.5 of RFC 8439, as one number |
| CryptoForms.AbsorbIsPolynomial | src/backend/tailscale/NaClBox.cpp:200-232 | the accumulator is the message, block by block with a one byte appended, as a polynomial in the multiplier, modulo 2^130 - 5 |
| CryptoForms.TagForm | src/backend/tailscale/NaClBox.cpp:188-247 | the tag of any message under any key in those terms |
| Salsa20.QuarterInPlace | src/backend/tailscale/NaClBox.cpp:83-86 | the four statements are the quarterround of section 3 of the Salsa20 specification |
| Salsa20.PassIsTransposedColumnRound | src/backend/tailscale/NaClBox.cpp:79-92 | when each column's quarterround sits rotated in its row, the block is the transposed columnround |
| Salsa20.TwoPasses | src/backend/tailscale/NaClBox.cpp:79-92 | two transposing passes are one doubleround |
| Salsa20.PassesAreDoubleRounds | src/backend/tailscale/NaClBox.cpp:79-92 | 2n passes are n doublerounds |
| Salsa20.Rounds | src/backend/tailscale/NaClBox.cpp:79-92 | the twenty passes in place are ten doublerounds |
| Salsa20.LayoutWords | src/backend/tailscale/NaClBox.cpp:70-75 | the words the load loop writes are those of the specification's 64-byte layout |
| Salsa20.Load | src/backend/tailscale/NaClBox.cpp:70-75 | the load loop fills all sixteen words with that layout |
| Salsa20.CancelFeedForward | src/backend/tailscale/NaClBox.cpp:94-100 | adding the start block and subtracting constant and input leaves the eight wanted words as the rounds produced them |
| Salsa20.Core | src/backend/tailscale/NaClBox.cpp:64-109 | with h = 0 the output is the Salsa20 hash of section 8, with h = 1 it is HSalsa20 |
| CryptoForms.QuarterRoundForm | src/backend/tailscale/NaClBox.cpp:83-86 | the four equations of section 3 with their rotations by 7, 9, 13 and 18 |
| CryptoForms.RoundForms | src/backend/tailscale/NaClBox.cpp:79-92 | which words sections 4 and 5 take together, and in which order |
| CryptoForms.TenRounds | src/backend/tailscale/NaClBox.cpp:79 | n double rounds are n times one |
| CryptoForms.HashForm | src/backend/tailscale/NaClBox.cpp:105-108 | every word of the hash is input word plus word after ten double rounds, modulo 2^32, little-endian |
| CryptoForms.HSalsaForm | src/backend/tailscale/NaClBox.cpp:94-104 | HSalsa20 gives words 0, 5, 10, 15, 6, 7, 8 and 9 after the rounds |
| CryptoForms.ConstantForm | src/backend/tailscale/NaClBox.cpp:23-24 | the constant is the text "expand 32-byte k" |
| NaClBox.Compare | src/backend/tailscale/NaClBox.cpp:54-61 | returns 0 exactly on equal buffers, otherwise -1, without a branch on the bytes |
| NaClBox.Increment | src/backend/tailscale/NaClBox.cpp:142-147 | the byte-wise carry loop is a 64-bit little-endian increment that wraps, and leaves the nonce alone |
| NaClBox.XorBlock | src/backend/tailscale/NaClBox.cpp:138-157 | one block xors the right keystream bytes in and touches no byte outside it |
| NaClBox.StreamXor | src/backend/tailscale/NaClBox.cpp:126-158 | byte i is message byte i xor keystream byte i, a function of key, nonce and i alone, also in place and for a null message |
| NaClBox.XStreamXor | src/backend/tailscale/NaClBox.cpp:161-167 | the same for XSalsa20, with the subkey from the first sixteen nonce bytes |
| NaClBoxSpec.XorStreamTwice | src/backend/tailscale/NaClBox.cpp:161-167 | encryption is an involution at every keystream position |
| NaClBoxSpec.XorStreamPrefix | src/backend/tailscale/NaClBox.cpp:161-167 | a longer message extends a shorter one's ciphertext; the keystream does not depend on the length asked for |
| NaClBox.KeystreamIsKey | src/backend/tailscale/NaClBox.cpp:275-282 | the null-message call used when opening yields the very one-time key that sealing used |
| CryptoForms.KeystreamForm | src/backend/tailscale/NaClBox.cpp:126-167 | byte i of block b of the keystream is byte i of the hash of subkey, last eight nonce bytes and b |
| NaClBox.SecretBox | src/backend/tailscale/NaClBox.cpp:261-271 | sixteen zeros, the tag, the ciphertext, although the tag overwrites half of its own key in the buffer; also in place |
| NaClBox.SecretBoxOpen | src/backend/tailscale/NaClBox.cpp:274-287 | succeeds exactly on the right tag, decrypts then, also in place, and writes nothing otherwise |
| NaClBox.BoxSealWithKey | src/backend/tailscale/NaClBox.cpp:304-325 | the output is tag and ciphertext of the message, and nothing is written when memory is short |
| NaClBox.BoxOpenWithKey | src/backend/tailscale/NaClBox.cpp:328-351 | succeeds exactly when the box specification opens the cipher text, too short inputs included, and then writes its message and no more |
| NaClBoxSpec.OpenAcceptsExactlySealed | src/backend/tailscale/NaClBox.cpp:304-351 | a box opens to a message if and only if it is that message sealed under the same key and nonce |
| CryptoForms.SealForm | src/backend/tailscale/NaClBox.cpp:304-325 | a sealed box byte by byte: the tag of what follows under the first 32 keystream bytes, then message xor keystream from byte 32 on |
| NaClBox.SealThenOpen | src/backend/tailscale/NaClBox.cpp:304-351 | opening what was sealed returns the message, for every message, nonce and key |
| Blake2s.Hasher.Increment | src/backend/WireGuardCrypto.cpp:69-74 | the two counter words add like one 64-bit number |
| Blake2s.MixInPlace | src/backend/WireGuardCrypto.cpp:92-100 | the eight statements of the macro are the mixing function of section 3.1 of RFC 7693 |
| Blake2s.RoundInPlace | src/backend/WireGuardCrypto.cpp:102-111 | the eight calls are one round: four columns, then four diagonals, with the round's message schedule |
| Blake2s.CompressInPlace | src/backend/WireGuardCrypto.cpp:76-116 | the in-place compression is that of section 3.2 with the 64-bit byte count split over two words |
| Blake2s.Init | src/backend/WireGuardCrypto.cpp:118-147 | a key is absorbed as one zero-padded block in front of the data, no key as nothing |
| Blake2s.Hasher.FillAndCompress | src/backend/WireGuardCrypto.cpp:157-167 | the buffered bytes and the first input bytes make one full block that is certainly not the last |
| Blake2s.Hasher.Update | src/backend/WireGuardCrypto.cpp:150-177 | the state absorbs exactly the input; a non-empty buffer keeps holding 1 to 64 bytes and the counter words keep equalling the bytes compressed |
| Blake2s.Hasher.Final | src/backend/WireGuardCrypto.cpp:180-192 | the digest is the one-shot digest of everything absorbed |
| Blake2sSpec.AbsorbPrefix | src/backend/WireGuardCrypto.cpp:150-177 | what the first blocks contribute does not depend on what follows them |
| Blake2s.HashChunks | src/backend/WireGuardCrypto.cpp:118-192 | for every split of the data into updates, keyed or not, the digest is that of section 3.3 of RFC 7693 on the concatenation |
| HashForms.StartForm | src/backend/WireGuardCrypto.cpp:118-128 | the first state word differs from the vector by digest length, key length, fanout 1 and depth 1, the others not at all |
| HashForms.InitializationForm | src/backend/WireGuardCrypto.cpp:51-54 | the vector is the fractional part of the square roots of the first eight primes |
| HashForms.ScheduleForm | src/backend/WireGuardCrypto.cpp:56-67 | the message schedule, digit by digit |
| HashForms.MixForm | src/backend/WireGuardCrypto.cpp:92-100 | the eight statements of section 3.1 of RFC 7693 with their rotations by 16, 12, 8 and 7 |
| HashForms.StepForm | src/backend/WireGuardCrypto.cpp:102-111 | which four words each step mixes with which message words, and that the others stay |
| HashForms.RoundsForm | src/backend/WireGuardCrypto.cpp:102-111 | n rounds are n times eight steps |
| HashForms.InitialForm | src/backend/WireGuardCrypto.cpp:83-90 | where byte count and last-block flag enter the work vector |
| HashForms.CompressForm | src/backend/WireGuardCrypto.cpp:114-116 | the state takes in both halves of the work vector after ten rounds |
| HashForms.OneBlock | src/backend/WireGuardCrypto.cpp:180-192 | data of up to 64 bytes is one padded block, counted and flagged |
| HashForms.TwoBlocks | src/backend/WireGuardCrypto.cpp:150-192 | data of two blocks is one full block, then the last one |
| HashForms.BlockAfterBlock | src/backend/WireGuardCrypto.cpp:168-173 | one block more is one compression more, with the bytes so far as its count |
| HashForms.DigestForm | src/backend/WireGuardCrypto.cpp:180-192 | the digest at any length: the blocks before the last one, then the last one padded, flagged and counted |
| HashForms.KeyedForm | src/backend/WireGuardCrypto.cpp:130-135 | a key is a block of its own in front of the data |
| Kdf.HashOne | src/backend/WireGuardCrypto.cpp:195-202 | the unkeyed 32-byte digest of the data |
| Kdf.Mac16 | src/backend/WireGuardCrypto.cpp:205-212 | the keyed 16-byte digest of the data |
| Kdf.HmacBytes | src/backend/WireGuardCrypto.cpp:215-246 | HMAC of RFC 2104 over BLAKE2s, keys longer than a block included |
| Kdf.Kdf1 | src/backend/WireGuardCrypto.cpp:251-258 | the first link of the HMAC chain, also when it overwrites the chaining key |
| Kdf.Kdf2 | src/backend/WireGuardCrypto.cpp:261-273 | both links are those of the old chaining key, also when the first output overwrites it |
| Kdf.Kdf3 | src/backend/WireGuardCrypto.cpp:276-291 | all three links are those of the old chaining key, also when the first output overwrites it |
| HashForms.WireGuardForm | src/backend/WireGuardCrypto.cpp:195-212 | which hash has which length and key |
| HashForms.HmacForm | src/backend/WireGuardCrypto.cpp:215-246 | HMAC with its two pads, byte by byte |
| HashForms.LongKeyForm | src/backend/WireGuardCrypto.cpp:215-229 | a key longer than a block is hashed first |
| HashForms.DerivationForm | src/backend/WireGuardCrypto.cpp:251-291 | the derivation chain of section 5.4 of the WireGuard whitepaper, for all three outputs |
| ReplayWindow.Window.Reset | src/backend/WireGuardBackend.cpp:720-725 | the ring stands for the empty set of counters |
| ReplayWindow.DistanceOfBlock | src/backend/WireGuardBackend.cpp:741-749 | the slots cleared on an advance are exactly those of blocks the old window did not have |
| ReplayWindow.Window.Advance | src/backend/WireGuardBackend.cpp:741-749 | after the clearing loop every covered block again agrees with the set, however far the jump |
| ReplayWindow.RecordMatches | src/backend/WireGuardBackend.cpp:751-756 | setting one bit records one counter and disturbs no other covered one |
| ReplayWindow.Window.Validate | src/backend/WireGuardBackend.cpp:728-757 | accepts a counter exactly when it is under the limit, at most 8128 behind every accepted one and not yet accepted; a rejected call changes nothing, and no 64-bit sum overflows |
| ReplayWindow.PolicyForm | src/backend/WireGuardBackend.cpp:48-53 | the policy in numbers: under 2^64 - 2^13 - 2, at most 8128 behind, not seen |
| ReplayWindow.AtMostOnce | src/backend/WireGuardBackend.cpp:728-757 | over any sequence of calls no counter is accepted twice |
| ReplayWindow.ReorderingIsTolerated | src/backend/WireGuardBackend.cpp:48-53 | distinct counters within 8128 of each other are all accepted, in any order |
| Transport.TrimRecovers | src/backend/WireGuardBackend.cpp:494-510 | padding to sixteen and trimming by the header returns the packet if and only if the packet tells its own size |
| Transport.WellFormedPacketsComeBack | src/backend/WireGuardBackend.cpp:494-510 | every IPv4 or IPv6 packet whose header states its size comes back byte for byte |
| Transport.DeclaredLength | src/backend/WireGuardBackend.cpp:494-510 | what a header of either version declares, byte by byte, and what is taken for anything else |
| Transport.MessageOpens | src/backend/WireGuardBackend.cpp:674-717 | a message opens under the same key to the padded packet and shows its own counter |
| Transport.MessageForm | src/backend/WireGuardBackend.cpp:686-696 | every field of a transport message: type, peer index, counter, and the packet sealed with nothing but zeros added |
| Transport.OnlyDataOpens | src/backend/WireGuardBackend.cpp:704-710 | only a data message of at least 32 bytes can open, under the counter in bytes 8 to 15 |
| Handshake.ResponderFollows | src/backend/WireGuardBackend.cpp:525-603 | a responder of section 5.4 of the WireGuard whitepaper that gets the initiation verifies mac1, opens both fields and reaches the initiator's transcript |
| Handshake.Agreement | src/backend/WireGuardBackend.cpp:525-671 | the answer to an initiation is accepted, and both ends hold one chaining key, one transcript hash, crossed transport keys and each other's index |
| HandshakeForms.AsciiForm | src/backend/WireGuardBackend.cpp:531-533 | a text goes in character by character |
| HandshakeForms.StartForm | src/backend/WireGuardBackend.cpp:525-545 | the texts the chain begins with |
| HandshakeForms.InitiationForm | src/backend/WireGuardBackend.cpp:525-603 | the initiation and its transcript, formula by formula as in section 5.4.2 |
| HandshakeForms.InitiationFails | src/backend/WireGuardBackend.cpp:525-603 | there is none exactly when an exchange fails |
| HandshakeForms.ConclusionForm | src/backend/WireGuardBackend.cpp:638-671 | what a response leads to, formula by formula as in sections 5.4.3 and 5.4.5, and when it leads to nothing |
| HandshakeForms.InitiationWhen | src/backend/WireGuardBackend.cpp:525-603 | an initiation goes out exactly when every call it takes works |
| HandshakeForms.OutcomeForm | src/backend/WireGuardBackend.cpp:525-671 | an attempt ends with the conclusion from the response awaited among 64 arrivals, if bytes 8 to 11 are its index, and otherwise with nothing |
| HandshakeForms.PresharedForm | src/backend/WireGuardBackend.cpp:651-655 | no preshared key is a key of 32 zeros |
| WireGuardBackend.Backend.MixHash | src/backend/WireGuardBackend.cpp:513-522 | the transcript hash absorbs the data, the buffer being input and output |
| WireGuardBackend.Backend.constructor | src/backend/WireGuardBackend.cpp:342-366 | the object holds exactly the given keys, zeros for a missing preshared key, an empty window and counter 0 |
| WireGuardBackend.Backend.SendInitiation | src/backend/WireGuardBackend.cpp:525-603 | with every fallible call taken into account, the message sent and the transcript left are those of section 5.4.2 |
| WireGuardBackend.Backend.Receive | src/backend/WireGuardBackend.cpp:618-633 | the response is the first 92-byte type-2 packet among at most 64 arrivals |
| HandshakeForms.AwaitForm | src/backend/WireGuardBackend.cpp:618-633 | the first arrival of 92 bytes and type 2 is taken if nothing before it ended the wait |
| HandshakeForms.AwaitedForm | src/backend/WireGuardBackend.cpp:618-633 | and nothing else is taken |
| WireGuardBackend.Backend.Finish | src/backend/WireGuardBackend.cpp:638-671 | the response is processed as in section 5.4.3; the transport keys change only on success |
| WireGuardBackend.Backend.PerformHandshake | src/backend/WireGuardBackend.cpp:525-671 | success, keys, transcript and peer index are those of the specification; a failure leaves both transport keys and says when the peer index changed |
| WireGuardBackend.HandshakeAgrees | src/backend/WireGuardBackend.cpp:525-671 | when the first response to arrive answers this initiation, the handshake ends in the responder's session with the keys crossed |
| WireGuardBackend.AlteredResponse | src/backend/WireGuardBackend.cpp:617-671 | whatever is altered outside bytes 12 to 59 of the first response to arrive, the handshake succeeds if and only if bytes 8 to 11 are its index; then both ends agree on keys and transcript, and on the index if and only if bytes 4 to 7 agree |
| Authentication.SuccessIsAnAnswer | src/backend/WireGuardBackend.cpp:525-671 | any handshake that succeeds, whatever arrived, agrees with the responder run that made the tag: on the session, on both static keys, on the preshared key and on the initiation answered, unless the two runs collide |
| Authentication.SameTagSameView | src/backend/WireGuardBackend.cpp:525-671 | ends that made one tag put in the same keys, messages and Diffie-Hellman results, step by step |
| Authentication.InitiatorHolds | src/backend/WireGuardBackend.cpp:525-671 | what an initiator that succeeds has put in and holds |
| Authentication.ResponderHolds | src/backend/WireGuardBackend.cpp:525-671 | what a responder of section 5.4 of the WireGuard whitepaper that answers has put in and holds, the initiator it takes the message to be from included |
| WireGuardBackend.Backend.Encapsulate | src/backend/WireGuardBackend.cpp:674-697 | the buffer starts with the transport message under the current counter, which is used up exactly when a message was made |
| WireGuardBackend.Backend.Decapsulate | src/backend/WireGuardBackend.cpp:700-717 | the window is consulted only after the tag verified; a fresh packet is handed up trimmed, anything else is rejected |
| WireGuardBackend.Backend.Rekey | src/backend/WireGuardBackend.cpp:1102-1122 | a successful rekey starts with counter 0 and an empty window, a failed one leaves keys, counter and window as they were |
| TransportRuns.NoncesAreUnique | src/backend/WireGuardBackend.cpp:674-697 | over any mix of turns two messages of one session share a counter if and only if their distance is a multiple of 2^64 |
| TransportRuns.FailedRekeysLeaveNoTrace | src/backend/WireGuardBackend.cpp:1102-1122 | failed rekeys, however many and wherever in a run, leave no trace in keys, send counter or replay window |
| TransportRuns.StepForm | src/backend/WireGuardBackend.cpp:674-757 | what each turn changes, in numbers, and that the rest stays |
| TransportRuns.SealsForm | src/backend/WireGuardBackend.cpp:679-683 | a packet is sealed when it fits into 2048 bytes and the cipher works |
| TransportRuns.HandedUpForm | src/backend/WireGuardBackend.cpp:1073-1082 | a packet that opens, is fresh and is no keepalive is handed up, and no other |
| TransportRuns.OpenedWasSent | src/backend/WireGuardBackend.cpp:700-717 | what opens at the receiver is the trimmed packet some sent message carried |
| TransportRuns.NextKeepsInv | src/backend/WireGuardBackend.cpp:674-757 | every send, rekey, loss, duplication, invention and delivery keeps the two ends and the network consistent |
| TransportRuns.AtMostOnceDelivery | src/backend/WireGuardBackend.cpp:674-757 | over any run with loss, duplication, reordering and forgery across rekeys, everything handed up was sent and no sent message is handed up twice |
| TransportRuns.DeliveredIntact | src/backend/WireGuardBackend.cpp:494-510 | what is handed up is byte for byte the packet sent, when its header tells its size |
| ReaderLoop.Loop.TurnReceive | src/backend/WireGuardBackend.cpp:1071-1082 | what is written to the tunnel for a datagram is what the receiver of the two-ended runs hands up for it, and nothing for a keepalive, a replay or a forgery |
| ReaderLoop.Loop.RunIteration | src/backend/WireGuardBackend.cpp:1025-1124 | one iteration does outbound, inbound, keepalive and rekey as the corresponding turns of a run, and asks to end the loop if and only if a rekey was due, failed and the session is expired |
| ReaderLoop.IterationForm | src/backend/WireGuardBackend.cpp:1025-1124 | an iteration in which everything is due does everything, in the order outbound, inbound, keepalive, rekey |
| ReaderLoop.IterationParts | src/backend/WireGuardBackend.cpp:1025-1124 | each part is done when it is due and not otherwise |
| ReaderLoop.RekeyForm | src/backend/WireGuardBackend.cpp:999-1122 | where a session begins, what a rekey brings, and when it ends the loop |
| ReaderLoop.Loop.RunReaderLoop | src/backend/WireGuardBackend.cpp:1025-1124 | the state, what went to the socket and what was written to the tunnel are those of a run of turns, which goes past no failed rekey of an expired session |
| ReaderLoop.WireNonces | src/backend/WireGuardBackend.cpp:980-1132 | each message on the wire shows its counter, and no session and counter pair is used for two of them, as long as no session seals more than 2^64 messages |
| ReaderLoop.WireShowsIndex | src/backend/WireGuardBackend.cpp:690 | every message on the wire is a data message and shows in bytes 4 to 7 the peer index in force when it was sealed |
| ReaderLoop.AddressedToResponder | src/backend/WireGuardBackend.cpp:638-690 | after a handshake with a section 5.4 responder every message of the session is addressed to that responder's own index |
| ReaderLoop.TunOnce | src/backend/WireGuardBackend.cpp:1071-1082 | of everything the loop writes to the tunnel no two packets have the same session and counter, whatever the network sends |
| ReaderLoop.RunReader | src/backend/WireGuardBackend.cpp:980-1132 | from the configured keys: the loop runs over the session of the first of at most three handshakes to succeed, and its outputs are those of a run; without a success nothing goes out |
| ReaderLoop.OutputsAreUnique | src/backend/WireGuardBackend.cpp:980-1132 | so within 2^64 messages a key neither a nonce on the wire nor a packet on the tunnel repeats |
| OpenVpnRoutes.TakeToken | src/backend/OpenVPNBackend.cpp:1113-1128 | the first token at or after the position: blanks skipped, ended by any delimiter |
| OpenVpnRoutes.Backend.ScanLogLine | src/backend/OpenVPNBackend.cpp:1131-1185 | the original gateway is captured once, with its interface; the tunnel peer follows every line that names one; nothing else changes |
| RouteForms.TokenForm | src/backend/OpenVPNBackend.cpp:1113-1128 | in any text: blanks and tabs are skipped, and the token ends at a blank, tab, comma, quote or line break, or with the text |
| RouteForms.PeerForm | src/backend/OpenVPNBackend.cpp:1131-1185 | from any line in which the words occur, whatever is before and after, the peer is taken whole and no more |
| RouteForms.PeerScanned | src/backend/OpenVPNBackend.cpp:1131-1185 | the same at the end of a line and behind blanks |
| RouteForms.GatewayForm | src/backend/OpenVPNBackend.cpp:1131-1185 | from any line that names both, gateway and interface are taken whole and no more |
| RouteForms.GatewayScanned | src/backend/OpenVPNBackend.cpp:1131-1185 | the same at the end of a line and behind blanks |
| RouteForms.ScanLeaves | src/backend/OpenVPNBackend.cpp:1131-1185 | a gateway once taken stays, and nothing is taken from a line without the words or without an interface |
| RouteForms.FindsFirst | src/backend/OpenVPNBackend.cpp:1131-1185 | the search finds the first occurrence |
| OpenVpnRoutes.Backend.InstallRoutes | src/backend/OpenVPNBackend.cpp:1188-1258 | pin, drop, add, then as much of the file write as the disk takes: exactly these effects in this order, unless something is missing or installed already |
| RouteForms.InstallForm | src/backend/OpenVPNBackend.cpp:1188-1258 | the routes of an installation field by field, when they are installed, and how far the file gets |
| OpenVpnRoutes.Backend.RefreshTunRoute | src/backend/OpenVPNBackend.cpp:1261-1295 | the tunnel route moves to the new peer, then the record as far as the disk takes it, in the order of effects the crash theorems speak of |
| OpenVpnRoutes.Backend.WriteSessionFile | src/backend/OpenVPNBackend.cpp:1376-1403 | a file that does not open stays as it was, a write that breaks off leaves it torn, and only a complete one leaves the record |
| RouteForms.RefreshForm | src/backend/OpenVPNBackend.cpp:1261-1295 | the routes of a refresh field by field, when there is one, and how far the file gets |
| RouteForms.EffectForm | src/backend/OpenVPNBackend.cpp:1188-1258 | what each effect does to the table and to the file |
| OpenVpnRoutes.Backend.OnConnected | src/backend/OpenVPNBackend.cpp:1007-1053 | a CONNECTED event installs, or refreshes what is installed |
| RouteForms.ConnectedForm | src/backend/OpenVPNBackend.cpp:1007-1053 | installs or refreshes by what is installed; recovery by what kind of file there is |
| OpenVpnRoutes.Backend.ApplyRestore | src/backend/OpenVPNBackend.cpp:1317-1355 | exactly the complete parts of a record are undone, in order |
| RouteForms.RestoreForm | src/backend/OpenVPNBackend.cpp:1317-1355 | the routes of an undoing field by field, and exactly which parts of a record lead to which |
| OpenVpnRoutes.Backend.RemoveRoutes | src/backend/OpenVPNBackend.cpp:1298-1314 | what was installed is undone and the record is gone |
| OpenVpnRoutes.Backend.Cleanup | src/backend/OpenVPNBackend.cpp:831-927 | the routing fields end empty, the routes removed |
| RouteForms.CleanupForm | src/backend/OpenVPNBackend.cpp:831-927 | what is undone is what was installed, and what is forgotten |
| OpenVpnRoutes.Backend.RecoverIfCrashed | src/backend/OpenVPNBackend.cpp:1416-1475 | a recorded session is undone and the record removed; a torn file is removed and nothing undone; one that cannot be opened is left alone |
| OpenVpnRoutesSpec.HandleKeepsBoundary | src/backend/OpenVPNBackend.cpp:1007-1053 | a handler keeps the table tunnelled exactly while routes are installed, whatever was rescanned in between, and a file in step stays in step unless the disk refuses it |
| OpenVpnRoutesSpec.SessionKeepsBoundary | src/backend/OpenVPNBackend.cpp:1131-1295 | for any sequence of log lines and CONNECTED events, whatever the disk does, the table is tunnelled exactly while routes are installed; as long as the disk takes the file, it exists exactly then and holds what is installed |
| OpenVpnRoutesSpec.FileDecides | src/backend/OpenVPNBackend.cpp:1317-1355 | while routes are changed, whichever tunnel routes are there, recovery gives the initial table back if and only if the file can be read and names them |
| OpenVpnRoutesSpec.CleanupRestoresTable | src/backend/OpenVPNBackend.cpp:1131-1355 | after any session and the cleanup the table is the initial one if and only if nothing was installed, or the captured default was there and the pin was not |
| OpenVpnRoutesSpec.BoundaryCrashRecovers | src/backend/OpenVPNBackend.cpp:1416-1475 | after any session a crash between handlers is undone if and only if the file is in step with what is installed, and then just as an orderly cleanup undoes it |
| OpenVpnRoutesSpec.RecoveryIsReplayable | src/backend/OpenVPNBackend.cpp:1416-1475 | recovery interrupted any number of times, after any of its effects and for any content of the file, ends where an undisturbed one does |
| OpenVpnRoutesSpec.Restoring | src/backend/OpenVPNBackend.cpp:1317-1355 | from any table, whichever parts of a record are there, undoing passes through known tables and leaves the record until its last effect |
| OpenVpnRoutesSpec.CrashDuringInstall | src/backend/OpenVPNBackend.cpp:1188-1258 | at exactly which points of the installation, for every outcome of the file write, a crash is undone by recovery |
| OpenVpnRoutesSpec.CrashDuringRefresh | src/backend/OpenVPNBackend.cpp:1261-1295 | at exactly which points of a refresh, for every content of the file before and every outcome of its write, a crash is undone |
| OpenVpnRoutesSpec.CrashDuringRemove | src/backend/OpenVPNBackend.cpp:1298-1314 | at exactly which points of the removal a crash is undone, which is everywhere with a file in step |
| OpenVpnRoutesSpec.CrashStatesAreReached | src/backend/OpenVPNBackend.cpp:1131-1258 | two log lines and a CONNECTED event reach the states those theorems speak of |
| OpenVpnRoutes.RunSession | src/backend/OpenVPNBackend.cpp:995-1355 | the backend object over a whole session: no record is left, and the table comes back exactly under that condition |
| WireGuardRoutesSpec.RoutesAreConserved | src/backend/WireGuardBackend.cpp:760-896 | for every list of ranges, split or full tunnel, gateway or not, installing and removing restores the table if and only if nothing clashed |
| WireGuardRoutes.Backend.InstallRoutes | src/backend/WireGuardBackend.cpp:760-855 | which calls install, the exact table and remembered gateway afterwards, and that a refusal touches nothing |
| RouteForms.WireGuardForm | src/backend/WireGuardBackend.cpp:760-855 | for every table, configuration and gateway: when routes are installed, and exactly which routes are in the table then, field by field |
| WireGuardRoutes.Backend.RemoveRoutes | src/backend/WireGuardBackend.cpp:858-896 | exactly what was installed is undone, and the resolver file is put back |
| WireGuardRoutes.UpAndDown | src/backend/WireGuardBackend.cpp:760-896 | connect then disconnect leaves the table as it was exactly without a clash, and the resolver file as it was |
| WireGuardRoutes.Backend.ApplyDns | src/backend/WireGuardBackend.cpp:907-944 | the original is moved aside unless a backup is there, then the tunnel's text is written if it can be |
| RouteForms.ResolverForm | src/backend/WireGuardBackend.cpp:907-955 | the text of the resolver file, and where the original is |
| WireGuardRoutes.Backend.RestoreDns | src/backend/WireGuardBackend.cpp:947-955 | a backup replaces the resolver file; without one nothing happens |
| WireGuardRoutes.Backend.RecoverIfCrashed | src/backend/WireGuardBackend.cpp:321-330 | start-up puts a stranded original back |
| WireGuardRoutes.ApplyIsItsSteps | src/backend/WireGuardBackend.cpp:907-944 | an apply is a possible run of single file operations with the same result |
| WireGuardRoutesSpec.OriginalIsSafe | src/backend/WireGuardBackend.cpp:907-955 | between any two file operations of any run of applies, restores and crashes the original is in the backup or in place |
| WireGuardRoutesSpec.RecoveryRestoresOriginal | src/backend/WireGuardBackend.cpp:321-330 | recovery after any such run restores what was there, if and only if a file was there or the tunnel never wrote one |
| Reconnect.ReconnectDelaySeconds | src/server/SotoportegoServer.cpp:51-62 | the doubling loop gives 5, 10, 20, 40 and then 60 seconds for every attempt number |
| Reconnect.Daemon.SelectBackend | src/server/SotoportegoServer.cpp:251-265 | the profile's type chooses the backend, OpenVPN where the wanted one does not exist |
| Reconnect.Daemon.HandleConnect | src/server/SotoportegoServer.cpp:268-381 | a live session refuses, a bad path refuses after the choice of backend, anything else arms and connects |
| Reconnect.Daemon.HandleDisconnect | src/server/SotoportegoServer.cpp:384-406 | the intent is recorded, a countdown stopped, and a backend with nothing running settles at once, except OpenVPN |
| Reconnect.Daemon.HandleStatus | src/server/SotoportegoServer.cpp:815-858 | a drop becomes a countdown where one is wanted, and arriving at CONNECTED resets the budget |
| Reconnect.Daemon.ArmReconnect | src/server/SotoportegoServer.cpp:928-942 | a user connect stores its profile and starts from a full budget |
| Reconnect.Daemon.StartReconnectCountdown | src/server/SotoportegoServer.cpp:955-973 | an attempt is spent even when no timer could be had |
| Reconnect.Daemon.HandleReconnectTick | src/server/SotoportegoServer.cpp:976-992 | one second less, or at the end an attempt; nothing without a timer or after a disconnect |
| Reconnect.Daemon.AttemptReconnect | src/server/SotoportegoServer.cpp:995-1024 | the stored profile's backend is connected, and a refusal starts the next countdown |
| Reconnect.Daemon.CancelReconnect | src/server/SotoportegoServer.cpp:1027-1033 | no timer and no seconds are left |
| DaemonForms.LiveForm | src/server/SotoportegoServer.cpp:278-288 | which states count as live |
| DaemonForms.StartForm | src/server/SotoportegoServer.cpp:81-111 | the daemon starts with nothing live, running or to be retried |
| DaemonForms.DelayForm | src/server/SotoportegoServer.cpp:51-62 | 5, 10, 20, 40 and 60 seconds |
| DaemonForms.SelectForm | src/server/SotoportegoServer.cpp:251-265 | which type leads to which backend |
| DaemonForms.PathForm | src/server/SotoportegoServer.cpp:307-321 | absolute, readable and without a parent segment inside or at the end, for the types that need a file |
| DaemonForms.ConnectForm | src/server/SotoportegoServer.cpp:268-381 | everything a user connect changes, and when it changes nothing |
| DaemonForms.CallForm | src/server/SotoportegoServer.cpp:1016-1023 | what a Connect does to the backend it calls and to the others, and when it is refused |
| DaemonForms.DisconnectForm | src/server/SotoportegoServer.cpp:384-406 | everything a user disconnect changes |
| DaemonForms.StatusForm | src/server/SotoportegoServer.cpp:815-858 | a status other than DISCONNECTED starts no countdown, stops none and connects nothing |
| DaemonForms.DropForm | src/server/SotoportegoServer.cpp:826-835 | when a drop starts a countdown, with how many seconds, and what is shown |
| DaemonForms.TickForm | src/server/SotoportegoServer.cpp:976-1024 | everything a second of the countdown changes, and the last one |
| DaemonForms.AttemptsOnlyAfter | src/server/SotoportegoServer.cpp:955-1024 | an attempt is spent or a timer started only by a drop or by the last second of a countdown whose Connect answered no |
| ReconnectSpec.HandleKeepsBudget | src/server/SotoportegoServer.cpp:815-1033 | every message keeps counted seconds plus what is still to come within the budget |
| ReconnectSpec.ReconnectIsBounded | src/server/SotoportegoServer.cpp:51-62 | in every reachable state at most five countdowns have started since the last reset, and at most 135 seconds were counted beyond the rest of a countdown CONNECTED did not stop |
| ReconnectSpec.BoundedAfterConnect | src/server/SotoportegoServer.cpp:928-1033 | from an accepted user connect to the next reset at most five countdowns start and at most 135 seconds are counted; 135 is reached |
| ReconnectSpec.OverBudgetExactly | src/server/SotoportegoServer.cpp:856-858 | after a CONNECTED more than 135 seconds can be counted without a reset if and only if a countdown was running when it arrived; the exact maximum is 135 plus its rest |
| ReconnectSpec.OverBudgetRun | src/server/SotoportegoServer.cpp:856-858 | a run from the start in which 195 seconds are counted after a CONNECTED that found the backend live |
| ReconnectSpec.SecondsBounded | src/server/SotoportegoServer.cpp:955-1024 | from any reachable state no continuation without a reset counts more than the seconds left and the delays of the attempts left |
| ReconnectSpec.Exhaust | src/server/SotoportegoServer.cpp:955-1024 | and that many are counted when every attempt is refused |
| ReconnectSpec.TickMakesProgress | src/server/SotoportegoServer.cpp:976-1024 | every counted second lowers attempts left, then seconds left, lexicographically |
| ReconnectSpec.HandleKeepsLive | src/server/SotoportegoServer.cpp:268-1024 | as long as backends leave ERROR only through their own Connect, every message, stale or not, keeps a live backend the active one and the one the stored profile selects |
| ReconnectSpec.OneLiveBackend | src/server/SotoportegoServer.cpp:251-381 | in every state of a run in which backends leave DISCONNECTED and ERROR only through their own Connect, at most one is live |
| LiveBackends.OneUpExactly | src/server/SotoportegoServer.cpp:278-288 | over any run, reports from behind an ERROR included, at most one backend runs or is live in every state if and only if no Connect that brings one up is made while another one still runs |
| LiveBackends.StepOneUp | src/server/SotoportegoServer.cpp:278-288 | one message makes two exactly when it makes such a Connect |
| LiveBackends.StepWorkers | src/server/SotoportegoServer.cpp:268-1024 | what runs changes only by a Connect that brings a backend up and by workers that end; a live backend has something running, and WireGuard is live while it runs |
| LiveBackends.FailedLoginOverlaps | src/backend/OpenVPNBackend.cpp:1076-1084 | a run from the start that ends with two live backends after a failed authentication |
| LiveBackends.RefusalOverlaps | src/backend/tailscale/TailscaleBackend.cpp:85-95 | a run from the start that ends with two live backends after a refused Connect |
| ReconnectSpec.DisconnectCancels | src/server/SotoportegoServer.cpp:384-406 | after a user disconnect no backend's Connect is called until a user connect gets past the checks |
| Management.Reader.Feed | src/backend/OpenVPNManagement.cpp:222-237 | the events are those of all lines the chunk completed, and the buffer is what follows the last line break |
| ManagementSpec.LinesOfTwo | src/backend/OpenVPNManagement.cpp:222-237 | the lines of a stream are those of a prefix, then those of its rest with what follows |
| ManagementSpec.NothingIsLost | src/backend/OpenVPNManagement.cpp:222-237 | lines and rest put together again are the stream, and contain no line break |
| Management.FeedAll | src/backend/OpenVPNManagement.cpp:222-237 | any chunking gives the events and the leftover of the concatenation |
| ManagementSpec.ConcatForm | src/backend/OpenVPNManagement.cpp:222-226 | a stream grows by what is appended |
| Management.EventsForm | src/backend/OpenVPNManagement.cpp:222-237 | one event for each line, in order |
| Management.Escape | src/backend/OpenVPNBackend.cpp:64-95 | the character loop is the escaping function, up to the value's NUL |
| ManagementSpec.UnquoteEscaped | src/backend/OpenVPNBackend.cpp:64-95 | a quoted argument reads back as the value and the reader stops at its own closing quote, whatever follows |
| ManagementSpec.EscapedIsOneLine | src/backend/OpenVPNBackend.cpp:64-95 | an escaped argument contains no line break of either kind and no NUL |
| ManagementSpec.EscapesForm | src/backend/OpenVPNBackend.cpp:64-95 | what is written for each character, by either builder, and the words around an argument |
| ManagementSpec.CStringForm | src/backend/OpenVPNBackend.cpp:64-95 | a value ends at its first NUL |
| ManagementSpec.CommandIsOneLine | src/backend/OpenVPNBackend.cpp:807-812 | a command with any value at all is exactly one line to the reader if and only if name and realm have no line break |
| Management.EscapeQuoted | src/backend/OpenVPNManagement.cpp:286-298 | the character loop puts a backslash before backslashes and quotes and changes nothing else |
| ManagementSpec.UnquoteQuotes | src/backend/OpenVPNManagement.cpp:286-298 | an argument escaped this way also reads back as the value, up to its own closing quote |
| ManagementSpec.QuotesKeepBreaks | src/backend/OpenVPNManagement.cpp:286-298 | the other escaping yields one line if and only if the value has no line break |
| Management.SendCommand | src/backend/OpenVPNBackend.cpp:932-972 | what goes out is a prefix of the framed line, resumed after partial and interrupted sends and never repeated |
| ManagementSpec.AllSentOnSuccess | src/backend/OpenVPNBackend.cpp:932-972 | as long as no call fails, what goes out is what the calls took together, up to the whole line |
| ManagementSpec.AfterFailure | src/backend/OpenVPNBackend.cpp:932-972 | the first call that fails or takes nothing is the last, and an interruption is no call at all |
| ManagementSpec.OneCall | src/backend/OpenVPNBackend.cpp:932-972 | a call takes what it can of what is left |
| Base64.DecodeInto | src/backend/WireGuardBackend.cpp:59-96 | the bounded decoder loop gives the result of the specification and writes nothing past what it returns |
| Base64.Decode | src/server/SotoportegoServer.cpp:1183-1231 | the unbounded decoder loop gives the result of the specification, a lone leftover group refused |
| Base64Spec.DecodersInvertEncoder | src/backend/WireGuardBackend.cpp:59-96 | for every byte string both decoders return what the encoder of section 4 of RFC 4648 was given, the bounded one exactly when there is room |
| Base64Spec.AlphabetForm | src/backend/WireGuardBackend.cpp:59-96 | where the ranges of the table begin and end, and that they count up in between |
| Base64Spec.ReverseForm | src/backend/WireGuardBackend.cpp:59-96 | a character outside the table has no value; whitespace is four characters |
| Base64Spec.EncodeForm | src/server/SotoportegoServer.cpp:1205-1223 | three bytes are the four base-64 digits of one number, and how the rest is filled up |
| Base64Spec.RunInvertsEncode | src/server/SotoportegoServer.cpp:1205-1223 | the same from any accumulator with stale high bits, and what is written before a refusal |
| Base64Spec.WhitespaceIsIgnored | src/server/SotoportegoServer.cpp:1205-1223 | interleaved whitespace never changes a run of the decoder, at any capacity |
| Base64Spec.DecodersIgnoreWhitespace | src/server/SotoportegoServer.cpp:1205-1230 | neither decoder sees whitespace, although the capacity of the strict one follows the text |
| Base64Spec.SpaceAnywhere | src/server/SotoportegoServer.cpp:1205-1230 | a blank, tab or line break put in anywhere changes nothing for either decoder |
| Base64Spec.SpacedTextDecodes | src/server/SotoportegoServer.cpp:1205-1230 | an encoded text decodes to its bytes wherever whitespace has been put into it |
| Base64Spec.LoneGroupExactly | src/server/SotoportegoServer.cpp:1224-1230 | where the bounded decoder succeeds the strict one agrees, except that it refuses exactly the texts with one character more than a multiple of four |
| Base64Spec.LoneCharacter | src/server/SotoportegoServer.cpp:1224-1230 | a single character tells the decoders apart |
| Base64Spec.NeverOverflows | src/backend/WireGuardBackend.cpp:59-96 | the bounded decoder never writes past its capacity |
| Base64Spec.EnoughRoom | src/server/SotoportegoServer.cpp:1205-1223 | a text never decodes to more bytes than it has characters, so the unbounded decoder needs no bound |

## Left out

- X25519, ChaCha20-Poly1305 and random numbers: OpenSSL's; the abstract suite above stands for them, and `BoxBeforeNm` with `BoxSeal` and `BoxOpen`, which only add a key agreement in front, are not modelled.
- Handshake.Agreement: the responder has no timestamp or load checks and sends no cookie; mac2 stays zero on both sides.
- ReaderLoop.Loop.RunReaderLoop: timers are not clocks, so keepalive, rekey and expiry are due in any iteration that says so; a stop by the user or a failing select is where the iterations end.
- WireGuardRoutes.Backend.InstallRoutes: the ranges, the gateway and the nameserver are parameters; parsing AllowedIPs, the route table and the DNS list is not modelled.
- OpenVpnRoutes.Backend.RecoverIfCrashed: the record is a value; the text of the session file and the process id in it, with which recovery ends a process that outlived the daemon, are not modelled.
- The `route` tool is an addition to or removal from a set of routes; adding a present route and deleting an absent one change nothing. Failures of the tool and `ifconfig` are not modelled.
- Management.Reader.Feed: `ParseLine` with `split`, `trim` and `StateForName` is a parameter, since the buffering does not depend on it; field extraction is settled by reading it.
- Base64.Decode: the signed accumulator is the 32-bit word the machine has, and the table built at first use is the function it holds.
- LiveBackends.OneUpExactly: backends are counted, not processes; a second openvpn started by the OpenVPN backend itself from ERROR counts as the same backend.
- Reconnect.Daemon.HandleConnect: credentials, subscriptions, replies, notifications and the geo lookup are not modelled, nor messages before the daemon is ready and has no backend.
- Threads: a log line scanned while a handler runs, and packets sent while the daemon's own messages are handled, are not interleaved finer than whole handlers and turns.
- The GUI, the command line, profile storage, the VPNGate catalogue, configuration parsing and the Tailscale control plane are plumbing, or depend on classes that are not part of this model.
