# OpenSSH, verified models of its protocol cores

This project models the parts of the patched OpenSSH 4.7 in `openssh/` that carry the
protocol, and proves what they promise. `dafny verify dfyconfig.toml` checks all of it.

Where the program updates state in place, the model has a class or an array method that does the
same steps, proved equal to a function on values; the results over whole runs are then
lemmas about those functions.

- **Channels** (`Channel*.dfy`). `ChannelStep` gives every SSH2 channel handler of `channels.c` and
  `nchan.c` as a function on the octets of one end. `ChannelObject` is the handlers on an object with
  three growing, compacting buffers: it refines those functions and says exactly when a buffer gives
  up; `EfdBuffer` is what the buffer of extended data can come to. `ChannelNet` joins two ends by FIFO links, `ChannelSafety` shows that every step of either end
  keeps one invariant, and `ChannelTheorems`, `ChannelProgress` and `ChannelStall` draw the
  conclusions: credit, unreachable error branches, no wrap-around, byte-stream integrity, no
  deadlock, and exactly when a sender is stalled for good.
- **CRC compensation detector** (`Crc32.dfy`, `Mask.dfy`, `Deattack.dfy`). The table-driven CRC is
  bit-serial division, and the scan with the open-addressing index gives the verdict of the plain scan.
- **Key exchange** (`MatchList.dfy`, `Kex*.dfy`, `DhValues.dfy`, `Transcript.dfy`). Negotiation, key
  derivation, the exchange hash, and a network of two ends, with a fixed group or a group exchange, that
  may both start rekeying at any time: they agree on every exchange, never break one off, and can complete
  every one they begin. `KexRoom` says exactly when `dh_gen_key` ends one for want of a larger group.
  `DhValues` is the arithmetic of `dh.c`, and `KexReal` shows that it meets what is assumed of it. `KexObject`
  is struct Kex with its buffers: matching lists, reading moduli, drawing exponents, hashing and
  deriving, it refines the machine of `KexRun`; `KexHeld` drives two such structures through any sequence
  of events and says that the keys they hold meet.
- **User authentication** (`KbdintDevices.dfy`, `UserAuth*.dfy`). Dispatch table, requests,
  keyboard-interactive devices and their contexts, for every sequence of packets.
- **Buffers, encodings and key files** (`SshBuffer.dfy`, `Wire.dfy`, `BufferAux.dfy`, `KeyBlob.dfy`,
  `AuthFile*.dfy`). The growing, compacting buffer is a byte queue; strings, bignums, key
  blobs and SSH1 key files are read back exactly within stated limits and never beyond them.
- **SOCKS** (`Socks*.dfy`). An incremental parser whose outcome does not depend on fragmentation.
- **Cipher modes and group choice** (`CipherCbc.dfy`, `CipherCtr.dfy`, `ChooseDh.dfy`).

## Where the code is not what one would expect

Each of these is a lemma with the exact condition.

- `buffer_check_alloc` promises room that `buffer_append_space` refuses when the requested length is
  over `BUFFER_MAX_CHUNK`, unless the buffer is too small, the new size too large and no 32-bit sum wraps (`SshBuffer.CheckAllocAgrees`,
  `SshBuffer.CheckAllocWraps`).
- A write failure that clears the output, and extended data that cannot be written, take their bytes
  out of the window for good. A sender that waits without credit gets some exactly while enough of the
  window is left, and is otherwise stalled in every continuation (`ChannelStall.CreditOrStall`); both
  ways into a stall are reachable (`ChannelStall.ClearedWindowStalls`,
  `ChannelStall.DroppedExtendedStalls`). With a positive packet limit, a maximum window of one byte never
  reopens, and every larger one does (`ChannelProgress.WindowReopens`).
- Extended data is read without `buffer_check_alloc`. The comparison with the peer's window alone keeps
  that buffer from giving up, over everything a channel can do, exactly if the window is at most 0x8fc000
  octets (`EfdBuffer.EfdGuardExact`); for every larger window a run of 575 reads, a megabyte sent and credited
  again and 64 reads leads to the abort (`EfdBuffer.GuardFails`).
- `dh_gen_key` ends the process when twice the bits needed are not less than the bits of the prime. Two ends
  that are otherwise fair never end an exchange by themselves exactly if every group in use is large enough
  (`KexRoom.EndsExactly`); a 1024-bit group and a 64-octet MAC key are not (`KexRoom.SmallGroupEnds`).
- With `SSH_BUG_HMAC` on one side only, the sides agree on everything exactly if both MACs that the
  proposals select have 16-octet keys, and on all but the MAC keys anyway (`KexChoose.HmacBugAgreement`,
  `KexExample.HmacBugDisagrees`).
- The SSH1 bignum writer silently truncates its bit count to 16 bits (`Wire.BignumRoundTrip`,
  `AuthFile.SaveLoad`).
- `choose_dh` settles on exactly the wanted size if and only if the first large enough candidate of the
  file has it; later ones of that size are passed over (`ChooseDh.WantedSizeTaken`,
  `ChooseDh.WantedSizePassedOver`).
- `kbdint_next_device` compares only the length of the token, and the last match wins: a device can be
  found at all exactly if its name begins no later name, and gets its turn from the default list exactly
  if besides its name is a non-empty token (`KbdintDevices.WhoCanBeFound`,
  `KbdintDevices.EveryDeviceInTurn`, `KbdintDevices.HiddenDevice`).
- After a SOCKS5 greeting the version octet is looked at again, so a SOCKS4 request is granted there
  (`Socks.Socks4AfterGreeting`).

## What is given from outside

System calls answer with arguments of the step (bytes read, bytes written, failures). Hashes, block
ciphers, signatures, host keys, random cookies and exponents are parameters; the laws assumed of them are
in `KexAgreement.Honest`, `KexObject.Sound`, `CipherCbc.Permutes`, `CipherCtr.Blocks` and
`AuthFile.Inverts`. Of two ends it is assumed, for the host key type they settle on, that the client accepts
the server's key and that the server's signatures verify under it; that the two sides of an exchange in a
group in use compute the same secret, which modular exponentiation does in every group
(`KexReal.ArithmeticCommutes`); that moduli are listed under the size they have; and that the groups in
use are large enough. Exponents are whatever `BN_rand` draws: a side keeps the first with a valid value, and runs
are followed as long as no `dh_gen_key` has used up its eleven tries. Completing exchanges takes a group
in which some exponent of the drawn width has a valid value (`KexProgress.Fruitful`). What `kex_choose_conf` chooses and what is hashed are functions of
the environment whose meaning (`KexRun.Chooses`, `KexRun.Transcribes`) is assumed where it is needed and
established by the code that chooses and hashes.
The password database, authentication methods and devices may answer anything, except that a method
accepts nobody the program does not know: `UserAuth.Accepts` builds in the test for a valid user that
`auth2-pubkey.c:75`, `auth2-hostbased.c:67` and `auth-passwd.c:84` make, and the unreachable abort for
an invalid user rests on it. `u_int` arithmetic on windows and buffer lengths wraps explicitly. The
host is little-endian where `crc_update` takes the octets of a word.

## Model

| member | source | states |
|---|---|---|
| `ChannelObject.Channel.constructor` | openssh/channels.c:264-328 | empty buffers, a full receive window and both halves open: the state every run starts from |
| `ChannelObject.Channel.WantsInput` | openssh/channels.c:769-778 | input is asked for exactly while the peer has credit beyond what is queued and the buffer takes another read; asking may compact the buffer and changes nothing a reader can see |
| `ChannelObject.Channel.ReadInput` | openssh/channels.c:1446-1490 | a read that was asked for never makes the buffer give up, and its octets go behind the input |
| `ChannelObject.Channel.HandleEfdRead` | openssh/channels.c:1606-1622 | aborts exactly when the buffer refuses the octets; never below the window up to which the guard suffices; otherwise the octets go behind the extended data, and end of file closes the descriptor |
| `EfdBuffer.EfdGuardExact` | openssh/channels.c:795-797 | over every sequence of reads, sends and window adjustments of a new channel, the comparison with the peer's window keeps the extended buffer from giving up exactly if that window is at most 0x8fc000 |
| `EfdBuffer.GuardFails` | openssh/channels.c:1606-1622 | for every larger window, a sequence of guarded reads after which the next one ends the process |
| `ChannelObject.Channel.Perform` | openssh/channels.c:1446-2297 | whatever an end may do next, the object with its buffers does what the machine does; only reads and data messages can make a buffer give up, and data messages within a conserved window cannot |
| `ChannelObject.Channel.InputData` | openssh/channels.c:1996-2052 | aborts exactly when the data is queued and the buffer refuses it, and never while window, buffer and consumed octets add up and the window is at most 0x8b8000 octets |
| `ChannelObject.Channel.InputExtendedData` | openssh/channels.c:2056-2099 | the same for extended data |
| `ChannelObject.NextMessageFits` | openssh/channels.c:1996-2099 | in every reachable state of two ends the next data message finds room in the buffer it goes to |
| `ChannelSafety.ReadDataLegal` | openssh/channels.c:1446-1490 | reading adds what was read to the stream still to be sent, and touches no credit and no signal |
| `ChannelSafety.WriteDataLegal` | openssh/channels.c:1494-1579 | written + buffered + lost stays the same stream, and window + buffered + consumed stays the maximum |
| `ChannelSafety.WriteExtLegal` | openssh/channels.c:1588-1605 | the same for extended data |
| `ChannelSafety.ExtFailLegal` | openssh/channels.c:1588-1605 | a failed write of extended data loses no octet of the account |
| `ChannelSafety.ReadExtLegal` | openssh/channels.c:1606-1622 | extended data read is added to the stream still to be sent |
| `ChannelSafety.WindowLegal` | openssh/channels.c:1656-1675 | what was consumed goes back into the window and to the peer, without a wrap |
| `ChannelSafety.PollDataLegal` | openssh/channels.c:1900-1958 | what is sent leaves the front of the input, is paid from the credit, and fits the peer's packet size |
| `ChannelSafety.PollExtLegal` | openssh/channels.c:1970-1987 | the same for extended data |
| `ChannelSafety.PollLegal` | openssh/channels.c:1875-1989 | a poll never sends behind an EOF or a CLOSE, and its EOF comes behind the last byte |
| `ChannelSafety.DataLegal` | openssh/channels.c:1996-2052 | data that arrives is paid from the window and is written, buffered or counted as lost, in order |
| `ChannelSafety.ExtLegal` | openssh/channels.c:2056-2099 | the same for extended data, which is dropped with its credit when it cannot be written |
| `ChannelSafety.AdjustLegal` | openssh/channels.c:2276-2297 | the credit grows by exactly the adjustment, which never wraps |
| `ChannelSafety.IeofLegal` | openssh/channels.c:2103-2123 | an EOF is recorded, and a forced drain only closes the input half as it may |
| `ChannelSafety.EofLegal` | openssh/nchan.c:370-380 | output drains behind an EOF without losing a byte |
| `ChannelSafety.CloseLegal` | openssh/nchan.c:276-307 | a CLOSE is recorded, and both halves move on without a signal out of turn |
| `ChannelSafety.ReadFailLegal` | openssh/nchan.c:136-149 | a failed read keeps every byte that is queued |
| `ChannelSafety.IbufLegal` | openssh/nchan.c:151-175 | EOF is sent once, behind all data, and never behind a CLOSE |
| `ChannelSafety.ShutdownLegal` | openssh/nchan.c:215-235 | closing the output, drained or after a failed write, accounts for every byte it clears |
| `ChannelSafety.CollectLegal` | openssh/channels.c:1789-1807 | CLOSE is sent once, and the channel freed only after the peer's |
| `ChannelSafety.ActLegal` | openssh/channels.c:1446-2297 | every handler, in every state the invariant allows, moves bytes, credit and signals only as a conforming end may |
| `ChannelSafety.StepKeepsInv` | openssh/channels.c:1446-2297 | the network invariant is kept by every step of either end |
| `ChannelSafety.RunKeepsInv` | openssh/channels.c:1446-2297 | the network invariant holds after every interleaving |
| `ChannelTheorems.EitherDirection` | openssh/channels.c:1867-1873 | both ends run the same code, so every result holds in both directions |
| `ChannelTheorems.CreditNeverExceeds` | openssh/channels.c:1656-1675 | sender credit + data in flight + adjusts in flight is at most the receiver's window, equal exactly while no extended data was dropped; window + buffered + consumed is at most the maximum, equal exactly while nothing was cleared |
| `ChannelTheorems.ErrorBranchesUnreachable` | openssh/channels.c:2018-2047 | the too-much-data, big-packet, after-EOF, nonexistent-channel and second-CLOSE branches never run, and no adjust overflows |
| `ChannelTheorems.WindowsNeverWrap` | openssh/channels.c:1928-1987 | no step of either end wraps a window |
| `ChannelTheorems.StreamIntegrity` | openssh/channels.c:1543-1576 | written ++ output ++ in flight ++ input is what was read, until a write fails; what was written is always a beginning of it |
| `ChannelTheorems.EofMeansComplete` | openssh/nchan.c:309-315 | an EOF arrives behind all data |
| `ChannelTheorems.FreedMeansQuiet` | openssh/nchan.c:405-443 | once a channel is freed nothing is in flight towards it |
| `ChannelProgress.NoDeadlock` | openssh/channels.c:1656-1675 | while data is undelivered some step is possible that brings it closer |
| `ChannelProgress.EverythingArrives` | openssh/channels.c:1656-1675 | from every healthy state some run without new input delivers every byte |
| `ChannelProgress.WindowReopens` | openssh/channels.c:1656-1675 | when exactly a drained receiver reopens the window, in terms of what was dropped and cleared |
| `ChannelStall.CreditOrStall` | openssh/channels.c:1656-1675 | a sender that waits without credit gets some by the next update exactly if what was dropped and cleared leaves enough of the window; otherwise in every continuation it has no credit and no byte leaves its input |
| `ChannelStall.StallLasts` | openssh/channels.c:1656-1675 | once stalled, stalled in every continuation |
| `ChannelStall.ClearedWindowStalls` | openssh/nchan.c:447-465 | a reachable state in which a cleared buffer has stalled the sender for good |
| `ChannelStall.DroppedExtendedStalls` | openssh/channels.c:2056-2099 | a reachable state in which dropped extended data has stalled the sender for good |
| `Crc32.Crc32Tab` | openssh/crc32.c:28-94 | each of the 256 entries is eight steps of bit-serial division |
| `Crc32.TableStepFeeds` | openssh/crc32.c:101-104 | one table step feeds the eight bits of an octet, lowest first, into the register |
| `Crc32.SshCrc32` | openssh/crc32.c:96-105 | the CRC of every octet string is its bit-serial division by the reflected polynomial |
| `Crc32.DivideWord` | openssh/crc32.c:96-105 | dividing the four octets of a word from zero is thirty-two shifts of that word |
| `Deattack.CrcUpdate` | openssh/deattack.c:73-78 | feeding a word into a register is dividing its four octets in little-endian order |
| `Deattack.CheckCrc` | openssh/deattack.c:80-98 | true exactly when the CRC of le32(1) le32(0) per equal block and eight zeros per other block is zero |
| `Mask.NextMasked` | openssh/deattack.c:146-147 | for every size the table can have, adding one and masking walks to the next slot and wraps at the end |
| `Deattack.Probe` | openssh/deattack.c:146-156 | every probe ends, and it ends on a used slot exactly if the block repeats an earlier one |
| `Deattack.IndexGrows` | openssh/deattack.c:157-157 | every block seen so far stays reachable from its hash |
| `Deattack.HashRound` | openssh/deattack.c:145-158 | one block: the repeat count, the verdict it leads to, and the index extended by it |
| `Deattack.HashScan` | openssh/deattack.c:143-159 | the verdict of the indexed scan: a bad block met before the 33rd repeat, else the repeat limit |
| `Deattack.Seen` | openssh/deattack.c:132-139 | the inner loop finds an equal earlier block if there is one |
| `Deattack.QuadraticScan` | openssh/deattack.c:130-142 | the verdict of the plain scan: some block repeats and passes check_crc |
| `Deattack.HashAgreesWithQuadratic` | openssh/deattack.c:116-159 | the two scans agree except for the denial-of-service cut-off, and entirely up to 32 repeats |
| `Deattack.Detector.Install` | openssh/deattack.c:116-128 | the table only grows, by fours, to three slots for two blocks |
| `Deattack.Detector.DetectAttack` | openssh/deattack.c:101-160 | the verdict on every input, with the table kept between calls |
| `SshBuffer.Buffer.constructor` | openssh/buffer.c:33-43 | an empty buffer of 4096 octets |
| `SshBuffer.Buffer.Clear` | openssh/buffer.c:62-67 | the queue is empty and no memory is touched |
| `SshBuffer.Buffer.Compact` | openssh/buffer.c:79-94 | contents are kept; data moves exactly beyond the threshold |
| `SshBuffer.Buffer.AppendSpace` | openssh/buffer.c:102-137 | at most one compaction and one growth; aborts exactly when the sizes refuse it; old contents stay in front |
| `SshBuffer.Buffer.Append` | openssh/buffer.c:71-77 | the data goes behind the contents, or the process aborts exactly when the sizes refuse it |
| `SshBuffer.Buffer.GetRet` | openssh/buffer.c:170-181 | the front of the queue is taken, or nothing changes |
| `SshBuffer.Buffer.ConsumeRet` | openssh/buffer.c:192-201 | the front is dropped, or nothing changes |
| `SshBuffer.Buffer.ConsumeEndRet` | openssh/buffer.c:212-219 | the end is dropped, or nothing changes |
| `SshBuffer.Buffer.CheckAlloc` | openssh/buffer.c:143-158 | contents are kept, and for up to BUFFER_MAX_CHUNK the answer is whether an append would not abort |
| `SshBuffer.CheckAllocAgrees` | openssh/buffer.c:139-158 | for every length below 2^32, when the answer and the append agree |
| `SshBuffer.CheckAllocWraps` | openssh/buffer.c:139-158 | a length for which the answer is yes and the append aborts |
| `Wire.PutGetU32` | openssh/bufaux.c:136-143 | a 32-bit integer reads back modulo 2^32, most significant octet first |
| `Wire.StringRoundTrip` | openssh/bufaux.c:162-208 | a string reads back with the rest untouched, exactly up to 256 KB |
| `Wire.StringPrefixFree` | openssh/bufaux.c:203-208 | no string encoding is a prefix of another |
| `Wire.MpintRoundTrip` | openssh/bufbn.c:142-216 | an mpint reads back exactly up to 8192 octets, and is refused beyond |
| `Wire.MpintMinimal` | openssh/bufbn.c:142-179 | the written form has the value, a clear sign bit and no redundant leading octet |
| `Wire.MpintShortest` | openssh/bufbn.c:142-179 | no form with a clear sign bit and that value is shorter |
| `Wire.MpintPrefixFree` | openssh/bufbn.c:142-179 | no mpint encoding is a prefix of another |
| `Wire.BignumRoundTrip` | openssh/bufbn.c:58-131 | an SSH1 bignum reads back exactly up to 65535 bits |
| `BufferAux.PutChar` | openssh/bufaux.c:243-250 | one octet behind the contents |
| `BufferAux.PutInt` | openssh/bufaux.c:136-143 | the encoding of the integer behind the contents |
| `BufferAux.PutString` | openssh/bufaux.c:203-208 | the encoding of the string behind the contents; never aborts within the stated room |
| `BufferAux.GetStringRet` | openssh/bufaux.c:162-188 | reads what the decoder on the contents reads, with its refusals and aborts and what each leaves in the buffer |
| `BufferAux.PutBignum2` | openssh/bufbn.c:142-185 | the mpint behind the contents; never aborts within the stated room |
| `BufferAux.GetBignum2Ret` | openssh/bufbn.c:187-216 | reads what the decoder on the contents reads, and what a refusal leaves in the buffer |
| `BufferAux.PutBignum` | openssh/bufbn.c:58-93 | the SSH1 bignum behind the contents; never aborts within the stated room |
| `BufferAux.GetBignumRet` | openssh/bufbn.c:98-131 | reads what the decoder on the contents reads, and what a refusal leaves in the buffer |
| `KeyBlob.BlobRoundTrip` | openssh/key.c:678-783 | a key comes back from its blob with nothing left over, exactly when each number fits 8192 octets |
| `KeyBlob.NamesAreDistinct` | openssh/key.c:639-654 | the written type names select their own key types |
| `KeyBlob.KeyToBlob` | openssh/key.c:744-783 | the blob and its length; zero for other keys; no abort for keys that can be read back |
| `KeyBlob.KeyFromBlob` | openssh/key.c:678-742 | the key and the number of octets left, as the decoder on the blob has them |
| `AuthFile.SaveLoad` | openssh/authfile.c:80-175 | loading with the same passphrase returns all six numbers and the comment exactly when each number has at most 65535 bits and the comment 256 KB |
| `AuthFile.SaveLoadPublic` | openssh/authfile.c:243-305 | the public part reads back without the passphrase, exactly within its limits |
| `AuthFile.LongMisread` | openssh/bufbn.c:58-131 | a number over 65535 bits is read back as another one |
| `AuthFileObject.SavePrivateRsa1` | openssh/authfile.c:80-151 | the octets of the file, with no abort for a key within the limits |
| `AuthFileObject.Pad` | openssh/authfile.c:121-123 | zeros up to the next multiple of eight |
| `AuthFileObject.MatchId` | openssh/authfile.c:280-289 | the identification is consumed exactly if it is there |
| `AuthFileObject.LoadPublicRsa1` | openssh/authfile.c:243-305 | what the public loader gives for every file, with its refusals and aborts |
| `AuthFileObject.LoadPrivateRsa1` | openssh/authfile.c:332-462 | what the private loader gives for every file and passphrase |
| `MatchList.ServerNames` | openssh/match.c:246-253 | the first forty names of the server's list, up to an empty one |
| `MatchList.Supported` | openssh/match.c:255-268 | whether a client name is among them |
| `MatchList.MatchLists` | openssh/match.c:236-274 | the first name of the client that the server has, or none |
| `KexProposal.NamesRoundTrip` | openssh/kex.c:67-114 | the ten lists read back as they were written |
| `KexProposal.PayloadRoundTrip` | openssh/kex.c:67-114 | a KEXINIT payload reads back cookie, lists and flag |
| `KexChoose.NegotiationAgrees` | openssh/kex.c:370-434 | on the two payloads client and server abort together or agree on kex, host key, we_need and both directions |
| `KexChoose.HmacBugAgreement` | openssh/kex.c:275-290 | whatever SSH_BUG_HMAC is on the two sides they abort together and agree on all but the MAC keys; on everything exactly if it is the same or both MACs the proposals select have 16-octet keys |
| `KexExample.HmacBugDisagrees` | openssh/kex.c:275-290 | proposals with a MAC of 20-octet keys on which the sides disagree, whichever has the flag |
| `KexDerive.NeedPrefix` | openssh/kex.c:436-482 | the key for a smaller need is the beginning of the key for a larger one |
| `KexDerive.StreamLength` | openssh/kex.c:454-475 | n rounds give n digests |
| `KexDerive.DeriveKey` | openssh/kex.c:436-482 | the buffer holds the digest chain for as many rounds as the need takes, and is at least that long |
| `KexDerive.DeriveKeys` | openssh/kex.c:487-508 | which of the six keys serves which direction and use |
| `KexDerive.DirectionsMatch` | openssh/kex.c:487-508 | what one side sends with the other receives with, and every key is at least we_need long |
| `Transcript.HashedInjective` | openssh/kexgex.c:57-82 | two exchanges of one kind hash the same octets only if all their fields agree, with the request and the group of a group exchange |
| `Transcript.KexHash` | openssh/kexdh.c:40-88 | the hash is taken of exactly those octets, for a fixed group or a group exchange, with no abort for fields of up to 256 KB |
| `KexBuffers.PropToBuf` | openssh/kex.c:65-83 | the buffer holds the payload of cookie and lists, with no abort for lists of up to 256 KB |
| `KexBuffers.BufToProp` | openssh/kex.c:86-114 | the lists and the flag as the parser on the payload has them, and none exactly where it or the copy aborts |
| `KexBuffers.WeNeed` | openssh/kex.c:412-422 | the loop ends with the largest key, block and MAC key size of both directions |
| `KexBuffers.PickConf` | openssh/kex.c:370-434 | the loops over the lists choose what the first common names say, for each direction |
| `KexBuffers.ChooseFromPayloads` | openssh/kex.c:370-434 | from the two buffers to the algorithms, as the negotiation on payloads has them |
| `DhValues.PubIsValid` | openssh/dh.c:179-219 | the loop over the bits answers whether the value lies strictly between 1 and p - 1 and has more than one bit set |
| `DhValues.ValidMeans` | openssh/dh.c:179-219 | valid values are exactly those strictly between 1 and p - 1 that are no power of two |
| `DhValues.BothCompute` | openssh/kexdhc.c:113-124 | for every modulus, generator and pair of exponents both sides compute the same number |
| `KexObject.DhGenKey` | openssh/dh.c:221-249 | gives up exactly for a group too small for the need; otherwise takes the first of at most eleven draws whose value is valid |
| `KexObject.Setup` | openssh/kex.c:225-240 | a structure that has sent one KEXINIT with its own proposal and nothing else; no abort for lists of up to 256 KB |
| `KexObject.Kex.SendInit` | openssh/kex.c:164-196 | overwriting the cookie in the kept buffer gives the payload of the new cookie and the same proposal; once per exchange |
| `KexObject.Kex.InputInit` | openssh/kex.c:199-223 | refines the machine from the buffers to the first wait, and aborts exactly when a payload is too large for its buffer |
| `KexObject.PickGroup` | openssh/kexgexs.c:93-96 | choose_dh answers with the group that the machine selects, and never with none |
| `KexObject.Kex.InputGexRequest` | openssh/kexgexs.c:67-103 | bounds are narrowed and checked as signed ints, and the group is the selected one |
| `KexObject.Kex.InstallKeys` | openssh/kexdhc.c:150-158 | the session id is set once, and the six keys derived and held are those of this exchange; aborts exactly if nothing is needed |
| `KexObject.Kex.InputDhInit` | openssh/kexdhs.c:99-158 | an invalid value ends it; otherwise the reply is signed over the hash of the buffers, and keys are held for exactly that exchange |
| `KexObject.Kex.InputDhReply` | openssh/kexdhc.c:83-158 | keys are held exactly after an accepted host key, a valid value and a signature over the hash of the client's own buffers |
| `KexObject.Kex.Receive` | openssh/kex.c:141-256 | in every phase the structure does with any message what the machine does, and holds the keys of its last exchange; it can abort only for a KEXINIT its buffers do not take, a hashed field over 256 KB, or keys of no length |
| `KexHeld.Converse` | openssh/kex.c:141-256 | two structures set up and driven through any sequence of events stay in step with the machine; between honest ends neither ends by itself, and after as many exchanges each holds for sending what the other holds for receiving |
| `KexHeld.HeldKeysMeet` | openssh/kex.c:487-508 | after as many exchanges on both sides, in every run, each structure holds for sending what the other holds for receiving, under one session id |
| `KexTheorems.StepKeepsInv` | openssh/kex.c:141-256 | every step of either side keeps the invariant of the exchange |
| `KexTheorems.NeverBreaksOff` | openssh/kex.c:141-256 | however the sides time their rekeying, neither meets a message it does not expect |
| `KexRoom.EndsExactly` | openssh/dh.c:228-230 | two fair ends never end an exchange by themselves exactly if every group in use is larger than sixteen times the octets needed |
| `KexRoom.SmallGroupEnds` | openssh/dh.c:228-230 | a 1024-bit group and a 64-octet MAC key with which the server ends |
| `KexTheorems.ExchangesAgree` | openssh/kexgexc.c:164-204 | the j-th exchange, with a fixed group or a group exchange, has the same transcript, hash and keys on both sides, is over the j-th payloads sent, and the session id stays the first hash |
| `KexTheorems.OneInitPerExchange` | openssh/kex.c:164-223 | one KEXINIT per exchange and side, and kex->peer never holds more than one payload |
| `KexAgreement.ClientVerifies` | openssh/kexdhc.c:128-148 | the client computes the hash the server signed |
| `KexAgreement.GroupIsFine` | openssh/kexgexs.c:67-96 | what a client asks for passes the server's checks, and the group it gets passes the client's |
| `KexProgress.QuietMeansDone` | openssh/kex.c:141-256 | when no message is left to handle, both sides have finished the same number of exchanges |
| `KexProgress.ExchangesComplete` | openssh/kex.c:141-256 | from every state, handling what is in flight completes every exchange that either side has begun |
| `KexProgress.KeysCanBeEstablished` | openssh/kex.c:164-256 | two honest ends with a usable outcome reach a state in which both have keys |
| `KexReal.ArithmeticCommutes` | openssh/kexdhc.c:113-124 | modular exponentiation meets what is assumed of the two sides of an exchange, in every group |
| `KexReal.AssumptionsCanBeMet` | openssh/kex.c:370-434 | everything assumed can be met at once, with either kind of exchange up to keys on both sides: modular exponentiation, the validity check, and host keys of which each verifies only its own signatures |
| `KexRefusal.NeverKeyed` | openssh/kex.c:310-344 | ten sendable lists each on which kex_choose_conf aborts never lead to keys, a session id or more than one KEXINIT each |
| `KbdintDevices.Pick` | openssh/auth2-chall.c:172-174 | the last device whose name begins with the token |
| `KbdintDevices.SearchTakesFirst` | openssh/auth2-chall.c:157-183 | the first usable name of the list is taken and the names behind it are left; failure means there is none |
| `KbdintDevices.EveryDeviceInTurn` | openssh/auth2-chall.c:102-135 | from the default list a device gets its turn, with the rest behind it, exactly if its name is a token and begins no later name |
| `KbdintDevices.WhoCanBeFound` | openssh/auth2-chall.c:172-174 | some token finds a device exactly if its name begins no later name |
| `KbdintDevices.HiddenDevice` | openssh/auth2-chall.c:157-183 | two devices of which the first is never found, whatever the client asks for |
| `UserAuth.UserPart` | openssh/auth2.c:155-156 | the user in front of the first colon |
| `UserAuthObject.AuthmethodLookup` | openssh/auth2.c:308-322 | the enabled method of that name, or none if no enabled method has it |
| `UserAuthObject.Kbdint.FindDevice` | openssh/auth2-chall.c:166-182 | the loop ends with the device and the rest of the list that the search gives |
| `UserAuthObject.Kbdint.constructor` | openssh/auth2-chall.c:102-135 | the client's list, or all devices if it is empty |
| `UserAuthObject.Authctxt.constructor` | openssh/auth2.c:95-99 | a table of error handlers with the service request installed |
| `UserAuthObject.Authctxt.ResetDevice` | openssh/auth2-chall.c:136-144 | a live device context is freed and forgotten |
| `UserAuthObject.Authctxt.ChallengeStop` | openssh/auth2-chall.c:204-213 | the handler is gone, and with it the context and the device context |
| `UserAuthObject.Authctxt.NextDevice` | openssh/auth2-chall.c:157-183 | the previous device context is freed before the search |
| `UserAuthObject.Authctxt.SendUserauthInfoRequest` | openssh/auth2-chall.c:246-277 | the number of prompts is kept and sent, or nothing happens |
| `UserAuthObject.Authctxt.ChallengeStart` | openssh/auth2-chall.c:216-244 | the next device waits for answers, or the challenge is stopped |
| `UserAuthObject.Authctxt.Challenge` | openssh/auth2-chall.c:189-201 | a context is made if there is none, and the challenge started |
| `UserAuthObject.Authctxt.InputUserauthInfoResponse` | openssh/auth2-chall.c:279-350 | all four aborts, and what each answer of the device leads to |
| `UserAuthObject.Authctxt.UserauthFinish` | openssh/auth2.c:211-281 | abort, postponement, the root check, success and the failure limit |
| `UserAuthObject.Authctxt.SetUpAuthContext` | openssh/auth2.c:158-187 | the first request fixes user and service, and a change of either disconnects |
| `UserAuthObject.Authctxt.InputUserauthRequest` | openssh/auth2.c:138-209 | a request from its first line to userauth_finish |
| `UserAuthObject.Authctxt.InputServiceRequest` | openssh/auth2.c:104-135 | ssh-userauth is accepted and everything else disconnects |
| `UserAuthObject.Authctxt.DispatchOne` | openssh/dispatch.c:84-105 | which handler a packet of any type reaches |
| `UserAuthObject.DoAuthentication2` | openssh/auth2.c:95-101 | packets are taken until success or the end, and the state is that of the run |
| `UserAuthRuns.StepKeeps` | openssh/auth2.c:138-281 | every packet keeps the invariant, and sets success exactly if it earns it |
| `UserAuthRuns.SuccessIsEarned` | openssh/auth2.c:138-281 | a run succeeds exactly if its last packet earns it: known user and ssh-connection in the first request, the same in all, accepted by an enabled method or device, past the root check, not postponed |
| `UserAuthRuns.RepliesBounded` | openssh/auth2.c:254-281 | at most max_authtries + 1 FAILURE replies and one SUCCESS; the aborts for a missing context, a missing device and an invalid user are unreachable |
| `UserAuthRuns.DevicesAccounted` | openssh/auth2-chall.c:136-244 | the response handler is installed exactly while context, device and device state are live and the request is postponed; no device context is freed twice, and none is left once the handler is gone |
| `Socks.VerdictStable` | openssh/channels.c:950-1132 | a verdict on a beginning of the stream is the verdict on every extension |
| `Socks.FragmentationIsIrrelevant` | openssh/channels.c:1135-1176 | the outcome depends only on the octets, not on how they are cut or when the decoder runs |
| `Socks.PendingConsumesNothing` | openssh/channels.c:1135-1176 | until a verdict nothing is consumed but a complete greeting |
| `Socks.Socks4Exact` | openssh/channels.c:950-1017 | a SOCKS4 CONNECT consumes exactly its octets, and is refused exactly for a user name over 1017 octets |
| `Socks.GreetingExact` | openssh/channels.c:1045-1072 | a greeting consumes exactly its octets, and is refused exactly without the no-authentication method |
| `Socks.RequestExact` | openssh/channels.c:1073-1132 | a SOCKS5 CONNECT to any kind of address consumes exactly its octets |
| `Socks.Socks5Grants` | openssh/channels.c:1029-1176 | a whole SOCKS5 dialogue, however cut, opens the right destination, sends both replies and leaves the payload |
| `Socks.Socks4AfterGreeting` | openssh/channels.c:1151-1161 | a SOCKS4 request is also granted behind a SOCKS5 greeting |
| `SocksObject.Dynamic.DecodeSocks4` | openssh/channels.c:950-1017 | the buffers, the result and the destination after the call |
| `SocksObject.Dynamic.DecodeSocks5` | openssh/channels.c:1029-1132 | the buffers, the flag, the result and the destination after the call |
| `SocksObject.Dynamic.PreDynamic` | openssh/channels.c:1135-1176 | one round of the decoder |
| `CipherCbc.Dual` | openssh/cipher-aes.c:73-117 | the equations of encryption hold exactly when those of decryption do |
| `CipherCbc.OneCiphertext` | openssh/cipher-aes.c:86-98 | the equations determine the ciphertext |
| `CipherCbc.OnePlaintext` | openssh/cipher-aes.c:99-114 | the equations determine the plaintext |
| `CipherCbc.CallsJoin` | openssh/cipher-aes.c:86-98 | two encrypting calls are one call on the concatenation and leave the same IV |
| `CipherCbc.DecryptingCallsJoin` | openssh/cipher-aes.c:99-114 | so are two decrypting calls |
| `CipherCbc.SendsAreOneCall` | openssh/cipher-aes.c:86-98 | any sequence of encrypting calls is one call on the concatenation and leaves its IV |
| `CipherCbc.ReceivesAreOneCall` | openssh/cipher-aes.c:99-114 | any sequence of decrypting calls is one call on the concatenation and leaves its IV |
| `CipherCbc.ReceivesWhatWasSent` | openssh/cipher-aes.c:73-117 | a receiver with the same IV gets back every input over any number of calls |
| `CipherCbc.Rijndael.CbcEncrypt` | openssh/cipher-aes.c:86-98 | the output satisfies the equations of encryption, in place or not, and the last block becomes the IV |
| `CipherCbc.Rijndael.CbcDecrypt` | openssh/cipher-aes.c:99-114 | the output satisfies the equations of decryption, in place or not, and the last block of the input becomes the IV |
| `CipherCtr.IncAddsOne` | openssh/cipher-ctr.c:50-58 | the counter grows by one modulo 256^len |
| `CipherCtr.CountersDiffer` | openssh/cipher-ctr.c:50-58 | no counter comes twice within 256^len blocks |
| `CipherCtr.CryptTwice` | openssh/cipher-ctr.c:60-82 | twice from the same counter is the identity |
| `CipherCtr.CallsJoin` | openssh/cipher-ctr.c:60-82 | cutting at a block boundary changes neither output nor final counter |
| `CipherCtr.AesCtr.Increment` | openssh/cipher-ctr.c:50-58 | the array holds the next counter |
| `CipherCtr.AesCtr.Apply` | openssh/cipher-ctr.c:60-82 | every octet is combined with its key stream octet, in place or not, and the counter moves on by the blocks used |
| `ChooseDh.ScanKnows` | openssh/dh.c:127-146 | the first pass settles on the right size and counts exactly the candidates that have it |
| `ChooseDh.BestIsGood` | openssh/dh.c:127-146 | large enough if any candidate is, not above any candidate larger than the wish, otherwise the largest |
| `ChooseDh.WantedSizeTaken` | openssh/dh.c:139-143 | the wanted size itself is settled on exactly if the first large enough candidate has it |
| `ChooseDh.WantedSizePassedOver` | openssh/dh.c:139-143 | a file in which a candidate of the wanted size is passed over |
| `ChooseDh.NothingWanted` | openssh/dh.c:127-153 | without a positive wish nothing is chosen |
| `ChooseDh.SelectionInBounds` | openssh/dh.c:111-175 | a candidate within the bounds, or the fixed group exactly if nothing suits |
| `ChooseDh.FirstPass` | openssh/dh.c:127-146 | the loop computes that size and count |
| `ChooseDh.SecondPass` | openssh/dh.c:155-172 | the candidate with that many of its size in front of it, missed exactly if there are not enough |
| `ChooseDh.Choose` | openssh/dh.c:111-175 | the fixed group exactly if nothing suits; otherwise the selected candidate of the best size; the second pass never misses it |

## Left out

- The loop over the channel table, `select` masks, socket set-up, X11 and port listeners: plumbing around the handlers that are modelled.
- `channel_set_fds`, open and open-failure messages: a channel starts open, or larval and activated once.
- Datagram (tun) channels, SSH1 channels, input and output filters, and replies of the SOCKS decoder in a flow-controlled channel: they follow another accounting.
- The SSH1 half of `nchan.c`, and `authmethods_get`, which only formats a list.
- `first_kex_follows` guesses and `proposals_match`; a KEXINIT between other exchange messages is met by the phase that waits.
- `packet_check_eom` and the packet layer: key exchange messages arrive as their fields, a KEXINIT as its payload.
- The host key check by the user, which is a parameter here.
- `detach_user` callbacks, which may keep a finished channel from being collected, and the forced read of a closing tty.
- PAM, GSSAPI, Kerberos, BSD and S/Key authentication, privilege separation, banners, logging and audit.
- `dispatch_range` and the range of key exchange handlers: user authentication never uses them.
- `key_equal`, key generation, fingerprints and key text forms: case analysis or formatting.
- `parse_prime` beyond its promise that sizes are at least two, and reading files: a file is a sequence of octets or lines.
- The multi-precision, hash, cipher and signature arithmetic itself; exponents and values are numbers.
- `dh_gen_key` running out of tries, which ends a process that draws eleven bad exponents: runs are followed up to there.
- SocksObject.Dynamic.PreDynamic: works on the octets of the input and output buffers, not on the buffers, because the decoder only peeks, consumes and appends a few octets.
- CipherCbc.Rijndael.CbcEncrypt: lengths that are not whole blocks, on which the code aborts, are excluded by the contract.
- CipherCbc.Rijndael.CbcDecrypt: the same.
- CipherCtr.AesCtr.Apply: the counter array of the context is taken to be apart from source and destination.
- AuthFileObject.LoadPrivateRsa1: the cipher is taken to keep the length of whole blocks, and the blinding set-up to succeed.
- AuthFileObject.SavePrivateRsa1: the cipher is taken to keep the length of whole blocks; writing the file itself is not modelled.
