# Verified model of the messenger's protocols

This project models the parts of the messenger whose correctness depends on how
operations interact, and proves what they keep over whole runs:

* **The two-party ratchet** (`public/crypto-core.js`). `Ratchet` gives every
  operation of a session as a function on its state, over ideal cryptography
  (`Symbolic`): keys are numbers, Diffie-Hellman secrets are unordered pairs, KDFs
  are injective constructors, an AEAD box opens only under its key and nonce, a
  signature verifies only on the exact bytes, which hold 32 bits of every number
  (`SignedWords`, `SigningPayload`). `SessionObject.Session` is the
  class with the source's mutable fields; each of its methods is proved to be that
  function. `SessionRuns` proves what one session keeps against any peer and any
  channel; `SessionStart` says what a session starts from and which envelopes are
  authentic, `EpochMemory` which epochs it remembers, `Shrink` and `Counters` what its
  headers leave out and count; `Pair`, `PairSteps`, `PairRuns`, `PairWorld` and `PairFifo` follow two
  sessions and the messages between them; `PairAltered`, `PairBoot`, `Restarting` and
  `OutOfOrder` treat altered counters, the first message, restarts and delivery in
  any order. `Padding` covers the length prefix and the blocks.
* **The relay** (`src/server.js`). `Relay` is the state machine of mix pool, jitter
  timers, inboxes, registrations, deliveries and drops; `RelayObject.RelayServer`
  holds the same tables as mutable fields. `RelayConservation`, `RelayDrops`,
  `RelayDelivery`, `RelayTiming`, `RelayRegistry`, `RelayFifo` and `Shuffle` hold the
  properties of all runs, `Framing` those of the stream and frame readers.
* **Base58, canonical JSON and the key-binding credential** (`public/aegis`).
  `Base58Buffer` runs the source's loops in arrays, `Positional` and `Base58` say
  what they compute and why the buffers suffice; `JsonText`, `Canonical` and
  `KeyBinding` go from string literals up to credentials, and `JsonReader` reads the
  canonical texts back.
* **Group epochs** (`public/group-core.js`): `Group`, the class
  `GroupObject.GroupSession`, and the properties in `GroupRuns` and `GroupNonces`.

Randomness, clocks and fresh keys are parameters. A timer firing is a step of its
own that is enabled from its due time on, and the clock does not pass a due timer.
A publish is the one step that follows its asynchronous checks, so the connection
may be gone by then.

## Where the code differs from what it promises

* A session that was saved and restored before any traffic flags its first reply
  as a first message, and the peer refuses it (`PairBoot.IdleRestartLosesTheReply`);
  the comment in `public/crypto-core.js:938-947` says a restored session never
  re-flags. Once it has had traffic it never does (`Restarting.RestartTransparent`).
* Such a restart also forgets the id of the one-time prekey while the root keeps its
  secret, so a first message sent afterwards cannot be read
  (`PairBoot.IdleRestartForgetsThePrekey`).
* Two sessions whose one-time prekeys differ never read each other's first message
  (`PairBoot.FirstMessageAcceptedIff`).
* `u32be` keeps 32 bits, so a signature covers the counters modulo 2^32 only
  (`SignedWords.SignedBytesEqualIff`). A channel can raise `pn` or `otk_id` in a
  header by a multiple of 2^32, and the message is accepted in a payload the peer
  never signed unless `pn` is read there (`PairAltered.RaisedPnIff`); beyond 2^32
  messages in one chain it can lower `n` too. `PairAltered.AlteredDecryptsIff` says
  exactly which counters pass, and that the text is always the one sent.
* `canonicalize` gives `[undefined]` and `[]` one text; everything else that has one
  text is equal up to key order and undefined members (`Canonical.CanonEqualIff`).
* `signStatement` signs a bare string as it stands, so a signature over the
  canonical text of an object is one over the object too
  (`KeyBinding.AcceptedWasSigned`).
* `jwkToDidKey` pads a short x coordinate on the right, so it shares its identifier
  with a longer one (`KeyBinding.ShortCoordinateCollides`).
* The group's replay set is emptied by a commit while the epoch before stays
  readable, so a message can be accepted twice (`GroupRuns.AcceptedAgainIff`); the
  nonce keeps 32 bits of a counter that the replay set compares whole
  (`GroupRuns.MovedCounterIff`).
* Two different commits to one epoch split the group without an error
  (`GroupRuns.ForkIsSilent`).
* A frame of exactly the maximal length is read from a WebSocket, while the same
  text and a newline overflow a TCP stream (`Framing.FrameMatchesStreamIff`).

## Model

| member | source | states |
|---|---|---|
| PairFifo.TwoPartyAgreement | public/crypto-core.js:543-923 | from equal roots and distinct static keys, for every interleaving of sends, in-order receives and restarts after some traffic, with both sides free to speak first, every envelope taken from a channel is accepted and each side has read exactly the peer's first texts in order |
| PairWorld.SafeOverAnyChannel | public/crypto-core.js:659-996 | when envelopes are dropped, repeated, reordered or altered and either side restarts at any time, even idle, every accepted text is one the peer sent, in a payload equal to the accepted one but for the 32-bit wrap of pn and otkId, and of n beyond 2^32; nothing is accepted twice, and the roots are equal or one step apart |
| PairRuns.Deliver | public/crypto-core.js:743-794 | exactly which messages, as sent, are accepted in a reachable state of the pair, with the text sent; accepting one keeps the pair's invariant |
| PairRuns.DeliverAs | public/crypto-core.js:743-794 | the same for a message under any counters n, pn and otkId in its header |
| PairAltered.AlteredDecryptsIff | public/crypto-core.js:427-444 | the exact condition for a sent envelope to decrypt with given counters in its header: they pass the checks, agree modulo 2^32, and the message is accepted under them; the text is the one sent |
| PairAltered.RaisedPnIff | public/crypto-core.js:772-773 | an accepted message stays accepted with pn raised by multiples of 2^32 exactly if pn is not read there or is still within the skip limit |
| SignedWords.SignedBytesEqualIff | public/crypto-core.js:427-444 | for any faithful spelling of keys and boxes, two payloads are signed as the same bytes exactly when they agree with every number taken modulo 2^32 |
| PairRuns.StaleChainDiffers | public/crypto-core.js:761-776 | ratcheting on any epoch but the one the sender is ahead by yields a chain the sender never used |
| PairFifo.EnvelopeAuthenticates | public/crypto-core.js:576-621 | whenever the receiver remembers the sender's epoch, the payload rebuilt from the shrunk envelope is exactly the signed one; otherwise the envelope is refused as an unknown epoch |
| PairFifo.DecryptsIff | public/crypto-core.js:659-794 | the exact condition for an untouched envelope to decrypt in a reachable state, and that it then gives the text sent |
| PairFifo.NextIsAccepted | public/crypto-core.js:743-776 | the next message in order always meets the acceptance condition, its epoch's KEM material sent or remembered |
| PairWorld.RootsAgreeIff | public/crypto-core.js:461-492 | the two bootstrap roots agree exactly when both sides mixed in the same one-time secret or neither did |
| PairWorld.OneTimePrekeyAgrees | public/crypto-core.js:468-497 | a directory prekey used by the sender and the same prekey used by its owner give one root and one delivery token |
| PairBoot.FirstMessageAcceptedIff | public/crypto-core.js:476-488 | a first message is accepted by the peer's fresh session exactly when their one-time secrets agree |
| PairBoot.IdleRestartLosesTheReply | public/crypto-core.js:951-996 | with or without one-time prekeys, a reply is accepted exactly if the replying session was not restarted before its first traffic |
| PairBoot.IdleRestartForgetsThePrekey | public/crypto-core.js:951-996 | the first message of a session restarted idle is read by the session its receiver builds from it exactly if there was no one-time prekey to forget |
| SessionRuns.RestartTransparentIff | public/crypto-core.js:951-996 | a restart changes nothing but the prekey id and the repeat of KEM material exactly when the session has had traffic |
| Restarting.TrafficSettles | public/crypto-core.js:543-571 | a session reached from a new one without an idle restart has no first flag pending, and a sending chain exactly if it has sent or received |
| Restarting.RestartsInvisible | public/crypto-core.js:914-996 | over any channel, taking all restarts out of a run leaves every signed payload, every text and every refusal the same; the envelopes differ at most in KEM material carried again |
| Restarting.RestartTransparent | public/crypto-core.js:914-996 | at any point of any run with traffic, the restored session goes on exactly as the saved one through every later send and receive, and flags nothing first |
| Restarting.KemOnWireIff | public/crypto-core.js:713-731 | a receiver makes the same of a message with and without its KEM material exactly if it remembers that material for the epoch, and refuses it without otherwise |
| Restarting.PeerGoesOnAlike | public/crypto-core.js:713-731 | a peer that gets fuller envelopes where it had decrypted the shorter ones sees and answers everything the same and ends in the same state |
| Restarting.RestartDecryptsAlike | public/crypto-core.js:951-996 | one step of it: in any reached state with traffic the restarted session answers any next envelope with the same text or error and the same state, but for what the restart forgot |
| Restarting.RestartEncryptsAlike | public/crypto-core.js:951-996 | one step of it: its next message is the same signed payload, not flagged first, with its KEM material on the wire |
| SessionRuns.AcceptedAtMostOnce | public/crypto-core.js:526-531 | on every run against any peer no ciphertext is accepted twice, the maps keep their caps of 2000 and 256, and the current epoch is never evicted |
| SessionRuns.SaveRestoreSave | public/crypto-core.js:914-996 | saving a restored session gives the saved data back exactly when the current epoch was remembered |
| SessionRuns.SaveRestoreSaveReachable | public/crypto-core.js:914-996 | in every reachable state saving, restoring and saving is saving |
| SessionRuns.DecryptKeepsParty | public/crypto-core.js:743-794 | no receive touches the identities, the token, the prekey id or the first-message flags |
| SessionStart.RootIngredients | public/crypto-core.js:461-497 | root and token mix the secrets of the two static keys and of the two signed prekeys, and with a one-time prekey the secret of it and the static key of the side that used it |
| SessionStart.StartsIff | public/crypto-core.js:453-520 | a session starts exactly unless the directory prekey is not signed by the peer, with nothing sent, received or remembered |
| SessionStart.AuthenticIff | public/crypto-core.js:659-741 | an envelope gives a payload exactly when it carries it: version, addressing, counters, KEM material sent or remembered, and the peer's signature over it |
| SessionStart.SkipsExactly | public/crypto-core.js:844-859 | a skip within the limit files the key of every position passed behind those stored and keeps the last 2000 of all; beyond it is refused |
| SessionStart.FirstReceive | public/crypto-core.js:816-836 | the first receive ratchets the sending chain if there is none or if the own static key is the larger of two first senders', and else leaves it and the root alone |
| SessionStart.SealedInBlocks | public/crypto-core.js:556-587 | every message is sealed at the least multiple of 256 bytes that holds it, and unpads to the text sent exactly below 2^32 bytes |
| SessionStart.RestoreRemembers | public/crypto-core.js:951-996 | restoring data saved without its current epoch remembers that one from the peer's key, and keeps every other |
| Shrink.ShrunkIff | public/crypto-core.js:589-621 | on any run against any peer an envelope leaves out its KEM material exactly if the one before it, since creation or restart, had the same ratchet key and it is not flagged first, and names the signing key exactly if it is |
| Counters.CountersExact | public/crypto-core.js:556-587 | on any run against any peer, n is how many envelopes went out before under the same ratchet key and pn how many the session ever sent under the key it held before |
| OutOfOrder.ReadsInAnyOrder | public/crypto-core.js:755-794 | for any order of one chain's messages within both caps every message is read once with its text, and the stored keys are then exactly those of positions passed and not read |
| OutOfOrder.EnvelopesInAnyOrder | public/crypto-core.js:713-794 | the same for the envelopes, with or without their KEM material |
| OutOfOrder.ReadsAcrossRatchet | public/crypto-core.js:755-794 | some of a chain's messages in any order, then a message of the next epoch, then any of the others in any order: within the caps every one is read, and so are their envelopes, authentic in the state before the ratchet and in it left without KEM material |
| EpochMemory.MemoryAfterReceive | public/crypto-core.js:526-531 | a receive that enters an epoch remembers it with its KEM material and keeps every other one with its own, but for the oldest of 256; any other receive leaves the memory as it was |
| EpochMemory.EpochsRemembered | public/crypto-core.js:526-531 | the same for every envelope decrypted in any reachable state |
| OutOfOrder.ReadsLateInAnyOrder | public/crypto-core.js:755-759 | wherever the receiver stands, messages whose keys were stored are read in any order and nothing but the stored keys changes |
| OutOfOrder.ReadTwiceRefused | public/crypto-core.js:755-759 | a message of the chain that was read is refused afterwards |
| Pair.ReadChainIff | public/crypto-core.js:782-842 | reading on a chain succeeds exactly for the message at the position the header leads to, which is never behind the receiver, within the skip limit and on the sender's chain |
| Ratchet.SkipKeepsShape | public/crypto-core.js:844-859 | skipping changes only the receiving chain, its position and the stored keys |
| SessionObject.Session.Decrypt | public/crypto-core.js:630-657 | a decryption that fails anywhere leaves every field and both maps in their old order; one that succeeds is the specified receive |
| SessionObject.Session.DecryptPayload | public/crypto-core.js:743-794 | the dispatch over first, skipped, new-epoch and current-chain messages |
| SessionObject.Session.EncryptMessage | public/crypto-core.js:556-623 | one send: chain step, counters, signed payload and shrunk envelope |
| SessionObject.Session.SkipKeys | public/crypto-core.js:844-859 | the skip limit, the derived keys and the eviction of the oldest |
| SessionObject.Session.RatchetOn | public/crypto-core.js:884-907 | both halves of a ratchet step |
| SessionObject.Session.EstablishFromFirst | public/crypto-core.js:816-836 | the first receive, with the comparison of static keys |
| SessionObject.Session.FirstSend | public/crypto-core.js:543-554 | the bootstrap of a sending chain without moving the root |
| SessionObject.Session.Remember | public/crypto-core.js:526-531 | the bounded epoch cache |
| SessionObject.Session.Save | public/crypto-core.js:914-949 | what is persisted |
| SessionObject.Session.FromSaved | public/crypto-core.js:951-996 | what is rebuilt |
| SigningPayload.EncodeEqualIff | public/crypto-core.js:427-444 | two field tuples with lengths below 2^32 are signed as the same bytes exactly when they agree up to 32-bit wrap of the counters |
| SigningPayload.EncodeInjective | public/crypto-core.js:427-444 | with bounded counters and prekey id the signed bytes determine every field |
| SigningPayload.DecodeEncode | public/crypto-core.js:427-444 | read front to back in the protocol's field order the signed bytes give every field back, numbers up to their 32-bit wrap, and nothing is left over |
| SignedWords.SignedBytesSay | public/crypto-core.js:427-444 | the signed bytes of a payload hold each of its fields in its own place |
| Padding.U32beEqualIff | public/crypto-core.js:348-350 | the four bytes agree exactly for numbers congruent modulo 2^32 |
| Padding.PadRoundTrip | public/crypto-core.js:1000-1017 | unpadding a padded message gives it back exactly when it is shorter than 2^32 bytes |
| Padding.PaddedLengthIsLeast | public/crypto-core.js:1000-1003 | the padded length is the least multiple of the block that holds the length prefix and the message |
| Padding.PaddedBytes | public/crypto-core.js:1000-1010 | every byte of a padded message: four of the length, then the message, then zeros |
| Padding.UnpadsIff | public/crypto-core.js:1012-1017 | what any bytes unpad to, and when |
| Padding.PadMessage | public/crypto-core.js:1000-1010 | the buffer filled in place is the padded message |
| RelayConservation.Conservation | src/server.js:197-328 | on every run each accepted message is in exactly one of mix pool, jitter timer, one inbox list, delivered and dropped, and there once |
| RelayConservation.StepCopies | src/server.js:529-672 | each step keeps every message's place count, and a send adds one place for the message it accepts |
| RelayDrops.DropsJustified | src/server.js:197-215 | in every reachable state a step drops a message only if it is past the retention time, its list or the table of recipients is full, or the relay stores nothing |
| RelayDrops.RefusalIsDrop | src/server.js:236-262 | an item is reported as refused exactly when it is dropped, for the reason recorded |
| RelayDrops.SweepLeavesYoung | src/server.js:812-822 | a sweep leaves exactly the waiting messages that are within the retention time |
| RelayDelivery.DeliveredExactlyFor | src/server.js:236-328 | in every enabled step of every run each new delivery goes to exactly the live connections its item is for (the joiner of a backlog, the members of a group, the holder of an address), and every item handled that is young enough and for someone live is delivered |
| RelayDelivery.PairGoesToHolder | src/server.js:259-261 | with mixing off, a pair message delivered by a send or a publish goes to exactly the one live connection that holds its recipient's address |
| RelayDelivery.GroupGoesToMembers | src/server.js:253-257 | with mixing off, a group message delivered by a send or a publish goes to exactly the live members of its group |
| RelayDelivery.BacklogGoesToJoiner | src/server.js:611-622 | what a subscribe takes from the inbox is delivered to the joiner alone, or pooled for it alone |
| RelayDelivery.FlushServes | src/server.js:302-328 | a closed window delivers what is released at once in the drawn order, each item to exactly whom it is for, and puts the rest behind timers of the delays drawn |
| RelayDelivery.JitterServes | src/server.js:318-325 | a jitter timer delivers its one item by the same rule |
| RelayTiming.DeliveredInTime | src/server.js:236-277 | everything delivered reached a live connection, was accepted for that recipient in that mode, and no more than the retention time before, however often requeued |
| RelayTiming.WindowKept | src/server.js:272-328 | the mix timer is armed exactly when the pool is not empty, no item stays longer than a window, jitter adds at most its bound, and group traffic is never held back |
| RelayTiming.WindowFromFirst | src/server.js:286-294 | on every run the window closes exactly its length after its first message came |
| RelayRegistry.OneAddressEach | src/server.js:529-549 | on every run a connection holds at most one address, the one it published last |
| RelayRegistry.LiveAddressStays | src/server.js:529-545 | an address held by a live connection moves exactly when that connection publishes another one successfully |
| RelayRegistry.ClosedHoldsNothing | src/server.js:729-734 | a closed connection holds no address and listens to no group; everyone else keeps theirs |
| RelayRegistry.HolderAfter | src/server.js:529-546 | who holds an address after any step, and when a publish is refused |
| RelayRegistry.ListenersAfter | src/server.js:729-734 | who listens to a group after any step |
| RelayRegistry.CapacityKept | src/server.js:197-215 | inbox lists hold 1 to 100 messages for at most 10,000 recipients, and none in ephemeral mode |
| RelayFifo.FifoPerRecipient | src/server.js:236-277 | with mixing off, what a recipient was given in one mode is an in-order, duplicate-free subsequence of what was accepted, what waits comes after it, and nobody waits while a live connection stands for them |
| RelayFifo.RequeueOrdered | src/server.js:548-622 | flushing a backlog at registration or subscription keeps every line in acceptance order |
| Shuffle.ShuffleKeeps | src/server.js:302-309 | the shuffled batch is a permutation |
| Shuffle.DrawsSeparate | src/server.js:306-309 | different draws give different orders, so each order comes from exactly one draw |
| Shuffle.EveryOrderDrawnOnce | src/server.js:306-309 | every order of a batch of distinct items comes from exactly one choice of the draws |
| Shuffle.ShuffleInPlace | src/server.js:306-309 | the swaps in the array are that shuffle |
| RelayObject.RelayServer.QueueMessage | src/server.js:197-215 | the queueing choke point: its three refusals in their order, or one more item at the end |
| RelayObject.RelayServer.DeliverMixed | src/server.js:236-262 | where one item goes now, or why it is not taken |
| RelayObject.RelayServer.EnqueueRelay | src/server.js:271-277 | pooling with the timer armed, or delivery at once |
| RelayObject.RelayServer.FlushMixBatch | src/server.js:302-328 | the pool emptied, shuffled and released |
| RelayObject.RelayServer.OnMixTimer | src/server.js:286-294 | closing a window and opening the next only if something waits |
| RelayObject.RelayServer.Publish | src/server.js:528-560 | refusal of an address held by another live connection, release of the old one, backlog flushed |
| RelayObject.RelayServer.Subscribe | src/server.js:611-622 | the joiner listed and the backlog sent to it alone |
| RelayObject.RelayServer.Send | src/server.js:627-672 | cover traffic discarded, everything else numbered and relayed, and the error reported with mixing off |
| RelayObject.RelayServer.DropClient | src/server.js:729-734 | what a closed connection leaves behind |
| RelayObject.RelayServer.SweepExpired | src/server.js:812-822 | lists filtered by age and empty ones removed |
| Framing.ChunkIndependent | src/server.js:693-710 | however a stream is cut, if no cut overflows the reader handles the trimmed non-empty lines of the whole stream and holds what follows the last newline |
| Framing.OverflowIff | src/server.js:697-701 | a cut overflows exactly when a chunk behind the unfinished line before it exceeds the limit |
| Framing.SameStream | src/server.js:693-710 | two cuts of one stream without overflow are handled alike |
| Framing.OverflowStartsOver | src/server.js:697-701 | after an overflow the reader goes on like a new one, and what it had handled stays |
| Framing.LinesExact | src/server.js:703-706 | the lines and the remainder are the text cut at each of its newlines |
| Framing.TrimExact | src/server.js:704 | trimming takes off exactly the white space on either side |
| Framing.FrameMatchesStreamIff | src/server.js:717-727 | a frame is handled like the same text and a newline on a stream unless it has exactly the maximal length |
| Framing.StreamReader.Feed | src/server.js:693-710 | one chunk: lines handled, newline-free remainder kept, buffer cleared on overflow |
| Framing.ReadFrame | src/server.js:717-727 | the lines of one frame |
| Base58.DecodeEncode | public/aegis/crypto.js:378-460 | decoding an encoded byte array gives it back |
| Base58.EncodeDecode | public/aegis/crypto.js:378-460 | decoding succeeds exactly on Base58 strings, and encoding the result gives the string back |
| Base58.EncodedExact | public/aegis/crypto.js:378-415 | the text's letters are the base-58 digits of the number the bytes are, with as many leading ones as zero bytes |
| Base58.LettersAreTheAlphabet | public/aegis/crypto.js:410-412 | the letter of each digit |
| Base58.EncodeBufferSuffices | public/aegis/crypto.js:388-389 | 138/100 digits and one more hold any byte array in base 58 |
| Base58.DecodeBufferSuffices | public/aegis/crypto.js:430-431 | 733/1000 bytes and one more hold any Base58 string |
| Base58Buffer.MultiplyAdd | public/aegis/crypto.js:393-402 | the carry loop in place multiplies the buffer's value and adds a digit, with no carry left and zeros outside the used part |
| Base58Buffer.Encode | public/aegis/crypto.js:378-415 | the encoder's text has the bytes' value in base 58 and their leading zeros as ones |
| Base58Buffer.Decode | public/aegis/crypto.js:422-460 | the decoder inverts it, or names the first foreign character |
| JsonText.QuoteSeparates | public/aegis/crypto.js:303 | two string literals followed by anything are equal only for equal strings |
| JsonText.LessIff | public/aegis/crypto.js:310 | keys are ordered by the first code unit in which they differ, a beginning before what it begins |
| Canonical.CanonEqualIff | public/aegis/crypto.js:301-321 | two values have one canonical text exactly when they are equal up to key order and undefined members, an array of one undefined item counting as empty |
| Canonical.CanonSeparates | public/aegis/crypto.js:301-321 | no canonical text is the beginning of another inside a longer text |
| JsonReader.CanonReads | public/aegis/crypto.js:301-321 | a strict reader given a canonical text with anything delimited behind it stops exactly there, with the same value up to undefined members, and the keys of every object strictly increasing |
| KeyBinding.DidEqualIff | public/aegis/crypto.js:269-294 | two keys have one did:key exactly when their zero-padded x and the parity of their y agree |
| KeyBinding.DidDecodes | public/aegis/crypto.js:269-294 | behind its prefix an identifier decodes to the curve's two bytes, 2 or 3 by the last byte of y, and x with zeros behind it |
| KeyBinding.ShortCoordinateCollides | public/aegis/crypto.js:282-284 | a key with a short x shares its did:key with another key |
| KeyBinding.SignedSubject | public/aegis/keybinding.js:61-79 | signing succeeds exactly on a matching key, a long enough address and a non-empty signing key, and the credential carries exactly the signed subject, five fields and what each holds |
| KeyBinding.SignedVerifiesIff | public/aegis/keybinding.js:61-121 | a signed credential verifies exactly when the verifier uses the signer's own key and that key has the credential's identifier |
| KeyBinding.AcceptedIff | public/aegis/keybinding.js:90-121 | exactly what an accepted credential shows about its issuer, key, subject and signature |
| KeyBinding.AcceptedWasSigned | public/aegis/keybinding.js:90-121 | an accepted subject was signed under the issuer's key as an equal object, or as its canonical text |
| KeyBinding.SignaturePinsCredential | public/aegis/keybinding.js:90-121 | two accepted credentials with one signature have one issuer, one key and one subject |
| GroupRuns.EpochAgreement | public/group-core.js:102-290 | with one commit to an epoch, any two members at the same epoch, founders, joiners or committers, hold the same key and roster whatever else reached them |
| GroupRuns.ReadableIff | public/group-core.js:231-250 | a message is read exactly by members at its epoch and those who committed one past it, once, and a text moves no epoch |
| GroupRuns.JoinIff | public/group-core.js:118-150 | a welcome admits exactly the roster's addresses, with the inviter's group, creator, epoch, key and roster, and nothing sent, seen or readable from before |
| GroupRuns.WelcomeIff | public/group-core.js:131-150 | which welcomes, from whoever, admit a member, and which are malformed |
| GroupRuns.OneGroup | public/group-core.js:102-305 | everyone who descends from one founding through joins, messages and commits is in the founder's group, under its creator, at its own address |
| GroupRuns.RostersInOrder | public/group-core.js:118-129 | a commit and a welcome list exactly the given roster, in code unit order |
| GroupRuns.OpensIff | public/group-core.js:231-250 | exactly which envelopes open, whoever made them |
| GroupRuns.NextKeyEqualIff | public/group-core.js:279-283 | a derived key determines the key before it, the secret, the roster and its epoch modulo 2^32 |
| GroupRuns.CommitEffect | public/group-core.js:269-290 | which commits move a session and to what state, which are refused and why, and which are no news |
| GroupRuns.FailedCommitIsSeen | public/group-core.js:296-305 | a commit that opens but does not apply is reported and remembered as seen |
| GroupRuns.FounderIncluded | public/group-core.js:102-115 | a founder is on its own roster, in the order invited and nobody twice, at an unused epoch 0 |
| GroupRuns.OwnCommitEcho | public/group-core.js:257-305 | one's own commit echoed back is a no-op after applying it, and applies it the same way otherwise |
| GroupRuns.ForkIff | public/group-core.js:269-290 | two commits to one epoch lead to one key exactly when secret and roster agree |
| GroupRuns.ForkIsSilent | public/group-core.js:269-305 | after a fork each side takes the other's commit without error or effect and reads nothing it sends |
| GroupRuns.BoundedReplay | public/group-core.js:231-290 | over any run a (sender, epoch, n) is accepted at most once between epoch changes and at most twice in all |
| GroupRuns.SeenExactly | public/group-core.js:231-290 | on any run the replay guard holds exactly what was accepted since the last move |
| GroupRuns.AcceptedAgainIff | public/group-core.js:284-289 | what was accepted is accepted again after a commit exactly if it was of the current epoch and the commit moves by one |
| GroupRuns.MovedCounterIff | public/group-core.js:198-205 | a copy with another counter opens exactly if the counters are congruent modulo 2^32 and the new one is unseen |
| GroupNonces.NonceSharedIff | public/group-core.js:198-224 | across a group with distinct addresses no two encryptions use one (key, sender, n), and two share a nonce exactly for one key and sender with counters a multiple of 2^32 apart |
| GroupNonces.NoncesDistinct | public/group-core.js:198-224 | below 2^32 messages an epoch no nonce is shared |
| GroupNonces.UseNamesNonce | public/group-core.js:198-224 | the nonce of an encryption is made of the key, sender and counter its envelope shows |
| GroupNonces.CounterIsNext | public/group-core.js:213-224 | on every run of a group an encryption's counter is one more than its sender's encryptions before it under the same key |
| GroupObject.GroupSession.Encrypt | public/group-core.js:213-224 | the counter advances and the box is sealed under the epoch key |
| GroupObject.GroupSession.Decrypt | public/group-core.js:231-250 | which key applies, the replay check, and remembering only what opened |
| GroupObject.GroupSession.ApplyCommit | public/group-core.js:269-290 | errors, the no-op, and the move with key, lookback, roster, counter and replay set |
| GroupObject.GroupSession.HandleIncoming | public/group-core.js:296-305 | a commit is folded in; one that fails has still been remembered |
| GroupObject.GroupSession.MakeCommit | public/group-core.js:257-266 | the commit and its envelope under the current key |
| GroupObject.GroupSession.FromWelcome | public/group-core.js:131-150 | the refusals of a welcome, or the joined session |

## Left out

- Computation of X25519, ML-KEM-768, ML-DSA-65, BLAKE2b, secretbox, ECDSA, SHA-256 and base64, and secrecy or anonymity claims: ideal symbolic functions stand in.
- UTF-8 between strings and bytes, and the malformed UTF-8 a decrypted plaintext may hold: texts are byte sequences in the ratchet and code units in JSON and groups.
- JSON parsing of envelopes, welcomes and commits: messages arrive parsed, with the type errors the code tests for as values of their own.
- Bundle verification, the making of prekeys, and the bundle on a first message: the source's `Identity` class is not part of this model, its four public keys are.
- The delivery token on the wire and the branch for a session without a pinned signing key, which no constructor reaches.
- Sessions persisted before the token existed, and keyfile migration; of those without an epoch cache only the seeding of the current epoch.
- SessionObject.Session: a counter is an unbounded integer, exact where JavaScript numbers lose precision beyond 2^53; only the signed bytes wrap.
- PairFifo.TwoPartyAgreement: channels are in order and lose nothing; if an epoch's first message is lost the rest of that epoch cannot be read, as `PairFifo.DecryptsIff` says exactly.
- KeyBinding.AcceptedWasSigned: lone surrogates of a bare signed string, which UTF-8 encoding replaces, are kept as they are.
- Canonical.CanonEqualIff: a number is the literal JSON.stringify prints for it, so -0 and 0 are one number and so are NaN and null; values JSON.stringify throws on are not values here.
- Base58Buffer.Encode: the buffer size is the rational product rounded down, not its floating-point value.
- The directory, shard lookup, key packages, prekey publication and the checks before a publish or a send is accepted: single guards.
- RelayObject.RelayServer.DeliverMixed: padding of deliveries to a bucket and the write to a socket; a delivery is recorded with the connections it goes to, and the order among a group's members is not kept.
- Sockets, TLS, WebSocket, logging and real time; aliveness is a set that a connection leaves once.
- GroupRuns.EpochAgreement: the 32-byte length of a commit secret is checked when it is applied, and rosters agree as multisets because a founder's is not sorted.
- Clients, the REPL, the HTML pages, storage, VERDAD and fact checking.
