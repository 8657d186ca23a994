# iWAN tunnel: a verified model

This project models the two ends of the iWAN tunnel and proves that they work together. A client written in C
(`src/iwand.c`) authenticates to a server written in Go (`server/`), is assigned an IPv4 address, and from then on the
two carry IP packets between the client's TUN device and the other clients, or the server's exit device. `dafny verify
dfyconfig.toml` checks every proof.

## Structure

| file | what it holds |
|---|---|
| `Wire.dfy` | packets, signatures, XOR encryption, credentials, TLV lists |
| `AesTables.dfy`, `AesField.dfy`, `AesCipher.dfy`, `AesBlocks.dfy` | AES-128: tables, field arithmetic, the two ciphers and their round trip, the in-place routines |
| `AesStandard.dfy`, `AesColumns.dfy`, `AesKnownAnswer.dfy` | AES-128 in the terms of FIPS 197: the law of the S-box, the key expansion byte by byte, a second definition of the cipher, the example of appendix C.1 |
| `Md5.dfy` | buffered MD5 over an arbitrary compression function |
| `Buffers.dfy`, `Protocol.dfy`, `Ipv4.dfy`, `Config.dfy` | in-place XOR and copies; the server's packets, IPv4 parser and configuration |
| `Sessions.dfy`, `Server.dfy`, `Routing.dfy` | the server: one-table specification, the class with its two maps, whole runs and interleavings |
| `Fragments.dfy`, `FragmentTable.dfy`, `FragmentRuns.dfy` | fragment reassembly: slots and their map, the class over fixed buffers, whole runs |
| `SegmentRouting.dfy` | decapsulation and the encapsulation it undoes |
| `ClientModel.dfy`, `ClientEngine.dfy`, `ClientRuns.dfy` | the client: steps on values, the class updated in place, whole runs |
| `Layouts.dfy` | every kind of packet byte by byte |
| `Handshake.dfy`, `Exchanges.dfy`, `Deliveries.dfy`, `Tunnel.dfy` | client and server together |

Code that works in place is a class or a method over arrays, proved equal to a step on values; the properties of runs
are proved about those steps. `Server.Server` holds the two maps of the server and `ClientEngine.Client` the record of
the client. Everything from outside enters a step as an argument: packets, clock readings, drawn identifiers, resolver
answers and success flags. Everything going out is a list of effects or an output value.

The digest is a parameter of the protocol proofs, which hold for every digest function; the client's own is
`ClientEngine.HashOf`, computed by `Md5.Context`.

Four promises turn out to hold only under a condition, which is proved exactly and with an input for which it fails.
The negotiated MTU is the minimum of both ends unless that is a server value below 68, which the client ignores
(`Handshake.AgreedMtu`, `Handshake.SmallServerMtuIgnored`). Fragments arriving in ascending order are put together in the
opposite order, which is right only when the order does not matter for their bytes (`FragmentRuns.AscendingOrder`,
`FragmentRuns.AscendingOrderExample`). A password authenticates by its first sixteen bytes, filled up with zeros
(`Handshake.AcceptedCredentials`, `Handshake.LongPasswordsCollide`), while the key of a session comes from the full
password, so that an accepted client shares the server's key exactly when the two derived keys are equal
(`Handshake.HandshakeLinks`). The 32-bit test of the MD5 block loop ends it in the right place exactly when the sum in it
does not wrap around there (`Md5.LoopTest`, `Md5.LongUpdateOverruns`).

Where comments and code of `src/iwand.c` disagree, the model follows the code. The comment at line 446 offers AES-256,
which the key setup replaces by AES-128 (lines 814-817).

## Model

| member | source | states |
|---|---|---|
| `Tunnel.TunnelIsTransparent` | src/iwand.c:1442-1466 | A well-formed IPv4 packet read from one linked client's TUN device is written byte for byte to the TUN device of the linked client that holds the address in bytes 16 to 19, for all four combinations of encrypted sessions; with exit mode its length field must be its length and, under strict source, bytes 12 to 15 the sender's address |
| `Tunnel.EndToEnd` | server/server.go:101-294 | From two clients about to begin an attempt, each with its own times: the ticks that send OPEN, both handshakes in turn, any other traffic that does not end the two sessions, and then a payload one client reads is what the other writes |
| `Tunnel.ConnectLinks` | src/iwand.c:1582-1609 | The tick that begins an attempt of a registered client, the server and the answer leave the two linked |
| `Tunnel.ServerDecodes` | server/server.go:245-265 | What a linked client sends for a payload, the server's session decodes to that payload |
| `Tunnel.ClientDecodes` | src/iwand.c:1259-1280 | What the server frames for a session, the linked client writes to its TUN device, for every payload that leaves room for the header |
| `Tunnel.ReturnTrafficArrives` | server/server.go:315-327 | A packet coming back from the exit device reaches the TUN device of the client it is addressed to, cut to its IPv4 length |
| `Tunnel.EchoedToSender` | server/server.go:291-293 | Without exit mode, a payload for an address nobody holds, or that is no IPv4 packet, comes back to its sender unchanged |
| `Tunnel.UnheldGoesToDevice` | server/server.go:272-289 | What a client sends goes to the exit device if and only if exit mode is on, it is a well-formed packet whose source may send it, and nobody holds its destination; and then it is cut to its IPv4 length |
| `Tunnel.WrongKindIsDropped` | server/server.go:253-258 | A DATA packet for an encrypted session, and a DATA_ENC packet for a plain one, is dropped |
| `Tunnel.HolderIs` | server/server.go:349-357 | A session that owns an address is the one the lookup by address finds |
| `Tunnel.SecondKeepsFirst` | server/server.go:370-376 | The OPEN of another configured user from another remote leaves a linked pair linked |
| `Handshake.ServerReadsOpen` | src/iwand.c:846-913 | The server accepts the OPEN the client builds and reads exactly the user name, password block, MTU and encryption flag that went in, for every configuration the client lets through |
| `Handshake.ClientReadsAck` | server/protocol.go:175-204 | The client reads out of an OPENACK the token, session id, MTU, address, DNS servers and encryption flag the server put in, whatever terms it held before |
| `Handshake.HandshakeLinks` | src/iwand.c:1031-1130 | OPEN of any accepted client, answered and read: both ends hold the same identifiers, address and encryption; the table gains exactly this session and loses those of the same remote or user; the TUN device gets the assigned address; and both hold the same key if and only if the keys derived from the two full passwords are equal |
| `Handshake.AcceptedCredentials` | server/protocol.go:134-153 | The client's OPEN is accepted if and only if its user is known and the first sixteen bytes of the two passwords agree one by one, a missing byte counting as zero |
| `Handshake.LongPasswordsCollide` | src/iwand.c:884-888 | The failing case: passwords of 17 bytes that differ in the last one are accepted for each other |
| `Handshake.ShortPasswordsExact` | server/protocol.go:134-153 | Passwords of at most 16 bytes without zeros are accepted if and only if they are the registered ones |
| `Handshake.FailedSetupCloses` | src/iwand.c:1110-1117 | When the TUN device cannot be set up the client closes the session at once |
| `Handshake.AcceptedRequests` | server/protocol.go:82-132 | An OPEN is accepted if and only if it is signed, its items are well formed, the last user name is not empty, there is a password block, every item of kind 2 or 3 has a valid length, and the last MTU is between 46 and 1600 |
| `Handshake.FieldsAreTheLast` | server/protocol.go:101-121 | Of several items of a kind the last one counts, and exactly the wrong lengths of kinds 2 and 3 are errors |
| `Handshake.TermsAreTheLast` | src/iwand.c:1045-1090 | The client takes MTU, address and second DNS server from the last item of each kind that is long enough |
| `Handshake.FlagsAreTheLast` | src/iwand.c:1076-1083 | And so for the two flags |
| `Handshake.AgreedMtu` | src/iwand.c:1105-1108 | The TUN MTU is the minimum of both configured values if and only if that minimum is at least 68 or the client's own value is the smaller |
| `Handshake.SmallServerMtuIgnored` | src/iwand.c:1105-1108 | The failing case: a server MTU of 60 is announced, and a client configured for 1400 keeps 1400 |
| `Handshake.LinkedUntilDisplaced` | server/server.go:133-149 | Every packet from any remote leaves a linked pair linked and its session as it is, except a verified CLOSE of it and an authenticated OPEN from its remote or for its user; those leave nothing of it |
| `Handshake.LinkSurvives` | server/server.go:117-130 | The same over every run of packets |
| `Exchanges.RefusalEndsTheAttempt` | src/iwand.c:1310-1315 | An OPEN that does not authenticate leaves the sessions alone, closes the client's attempt, and the next tick resets it |
| `Exchanges.EchoMeasuresTime` | server/server.go:217-228 | The client's echo request is answered by the server with an echo answer, which sets the current delay to the 32-bit difference between receiving and sending |
| `Exchanges.ServerIgnoresStrays` | server/server.go:133-149 | Unsigned echo requests and CLOSEs, packets for no session and unknown kinds change and send nothing; an unsigned OPEN is refused |
| `Exchanges.CloseRemovesTheSession` | server/server.go:230-243 | The client's CLOSE removes its session and no other |
| `Deliveries.RoutedPayloadArrives` | src/iwand.c:1329-1390 | A DATA or DATA_ENC packet that a segment router padded, encrypted and wrapped is written to the TUN device as exactly its payload, for every route, padding, header and both non-zero modes |
| `Deliveries.PlainRoutedPayloadArrives` | src/iwand.c:1352-1365 | Without links, with mode 0, or when the packet names no algorithm, the inner packet is taken as it is and its payload written |
| `Deliveries.OtherAlgorithmIsDropped` | src/iwand.c:1362-1364 | A packet that names another algorithm than the client's is dropped |
| `Deliveries.OnlySixteenByteBlocks` | src/iwand.c:814-837 | After key setup every packet for which the client calls the decryption names algorithm 1, so every call decrypts 16-byte blocks or refuses data that is not a multiple of 16, whether the packet is dropped later or not |
| `Deliveries.EventReachesTheTable` | src/iwand.c:1392-1466 | Within a session, an event that brings a fragment, by itself or in a segment-routed packet, does to the slots what the fragment does and writes what that delivers, XORed with the key if the session is encrypted; every other event leaves the slots alone |
| `Deliveries.SlotsFollowTheFragments` | src/iwand.c:1823-1880 | Over every run of a session, whatever else happens in it, the slots go through the run of its fragments |
| `Deliveries.FragmentsAreAnswered` | src/iwand.c:1823-1880 | And each fragment is answered as in that run |
| `Deliveries.GroupArrives` | src/iwand.c:1170-1227 | A group arriving in any order and at any offsets, among any other events of a session and from every state a run reaches: nothing is written before its final fragment, and then the final fragment laid over the others, or nothing if that is too long |
| `Deliveries.FragmentedPayloadArrives` | src/iwand.c:1183-1227 | A payload, XORed with the key as a whole if the session is encrypted and unchanged if not, and split into pieces arriving from the highest offset down with the final one last, is written at that one and not before, among any other events of a session |
| `Deliveries.FragmentedPayloadAlwaysArrives` | src/iwand.c:1801-1880 | The same after every run from the start of the program |
| `Deliveries.TwoFragmentsInOrder` | src/iwand.c:1142-1253 | The common case down to the bytes on the wire: two fragments in ascending order, less than the timeout apart, with any other events in between; the second packet delivers the payload |
| `Routing.EveryInterleavingIsAtomic` | server/server.go:101-131 | For every interleaving of serve loop and exit-device reader at lock granularity, whatever is sent is what the sequential handler sends, uninterrupted, on a table the server had between receiving and sending |
| `Routing.EveryRunIsAtomic` | server/server.go:296-313 | The same from a server without sessions, and every table of the run keeps its sessions unique |
| `Routing.ActKeepsSystemOk` | server/server.go:329-357 | The invariant behind it is kept by every action between two acquisitions of the lock |
| `Routing.RunsKeepSessionsUnique` | server/server.go:151-243 | Over every run of packets, however the identifiers are drawn: at most one session for each remote, user name and address |
| `Routing.ExitModeForwarding` | server/server.go:267-289 | In exit mode nothing is echoed; what is sent is the start of the payload that is an IPv4 packet of exactly its own length, to the holder of the address in bytes 16 to 19 or the device, with the sender's address in bytes 12 to 15 under strict source |
| `Routing.EveryLogIsForwarded` | server/server.go:245-294 | For every interleaving, everything sent for a DATA packet obeys the rules of its mode on a table of its window: in exit mode no echo, exact IPv4 length, holder or device, and the sender's address under strict source; otherwise the unchanged payload to the holder or back |
| `ClientRuns.StepKeepsSessionOk` | src/iwand.c:1392-1636 | Every packet, TUN read, tick and reconnect keeps the session invariants |
| `ClientRuns.RunKeepsSessionOk` | src/iwand.c:1823-1880 | Every run keeps them |
| `ClientRuns.EveryRunKeepsSessionOk` | src/iwand.c:1801-1880 | From the start of the main loop: never NOT_READY; outside DNS_NEEDED the server is resolved and its address is the last answer for it; established only with a peer address, an open socket and the configured port; slots within bounds, distinct and not from the future; delays between their extremes |
| `ClientRuns.SendsToResolvedServer` | src/iwand.c:956-968 | After every run, whatever an event sends goes to the last address the server resolved to and the configured port |
| `ClientRuns.DelaysTracked` | src/iwand.c:1282-1298 | Over every run the maximum and minimum delay are those of the delays measured since the last reset (the minimum also of 5000000), and the current delay is the last one |
| `ClientRuns.ExtremesOf` | src/iwand.c:1294-1295 | These two are bounds of all measured delays and are attained |
| `ClientRuns.PacketsDoNotProlong` | src/iwand.c:1392-1436 | While an attempt lasts, no received packet touches its timers or sends anything |
| `ClientRuns.AttemptIsBounded` | src/iwand.c:1594-1609 | No tick of an attempt comes later than six seconds after its begin, and the OPEN packets still to be sent are bounded by the time left |
| `ClientRuns.AtMostFourOpens` | src/iwand.c:1582-1609 | An attempt sends at most four OPEN packets, whatever is received meanwhile |
| `ClientRuns.FirstTick` | src/iwand.c:1582-1609 | The tick that begins an attempt sends exactly one OPEN when the clock is at least 2, and nothing before that |
| `ClientRuns.TickMakesProgress` | src/iwand.c:1561-1636 | With working socket and resolver and the clock at least 2, every tick sends an OPEN or lowers a measure |
| `ClientRuns.Recovers` | src/iwand.c:1561-1636 | Hence enough ticks without packets send an OPEN |
| `ClientRuns.AlwaysRecovers` | src/iwand.c:1509-1636 | From every state a run can reach, 18 ticks without packets send a fresh OPEN |
| `ClientRuns.EstablishedTick` | src/iwand.c:1611-1626 | A tick of an established client resets if and only if nothing was accepted for more than 15 seconds, and otherwise sends an echo request when the counter becomes even |
| `ClientRuns.TickWithoutSocket` | src/iwand.c:1565-1568 | Without a socket a tick does nothing |
| `ClientRuns.EchoEverySecondTick` | src/iwand.c:1619-1625 | Of any two consecutive ticks of a session that lasts, exactly one sends the echo request and the other nothing, whatever happens in between |
| `ClientRuns.AnsweredSessionLasts` | src/iwand.c:1611-1626 | A session whose echo requests are answered in time stays established over every run, from any state that leaves enough time for the next answer |
| `ClientRuns.IdleSessionLasts` | src/iwand.c:1611-1626 | Hence an idle session is never reset when ticks come at most p seconds apart and requests are answered within 15 - 2p seconds |
| `ClientRuns.RecvInSession` | src/iwand.c:1392-1436 | Within a session only a verified CLOSE changes the state, and every echo answer counts as a sign of life |
| `ClientRuns.ResetOutcome` | src/iwand.c:1509-1555 | A reset sends CLOSE exactly from an established session, clears the TUN device exactly after a session, forgets terms, identifiers, delays and fragments, and keeps the server's address, and goes to DNS_NEEDED if and only if the server is given by name |
| `ClientRuns.TickAfterReset` | src/iwand.c:1570-1609 | The tick after a reset resolves a named server again and takes the new answer, and begins an attempt with a numeric one |
| `ClientRuns.CloseEndsTheSession` | src/iwand.c:1300-1308 | A verified CLOSE ends an established session, and the next tick resets it without a CLOSE in return |
| `ClientRuns.StrayPacketsIgnored` | src/iwand.c:1392-1436 | Packets that do not belong to the state of the client, or lack the signature they need, change nothing |
| `Fragments.CountLive` | src/iwand.c:1234-1241 | With distinct groups in the slots, there are ten live groups if and only if every slot is live |
| `Fragments.RoomForOneMore` | src/iwand.c:1234-1242 | A new group is admitted if and only if fewer than ten groups are live |
| `Fragments.SlotReplaced` | src/iwand.c:1209-1251 | Overwriting one slot changes the represented map at the slot's old and new group only |
| `Fragments.LiveGroup` | src/iwand.c:1170-1230 | A fragment of a live group does to the slots what it does to the map |
| `Fragments.NewGroup` | src/iwand.c:1234-1252 | A fragment of a new group does to the slots what it does to the map |
| `Fragments.StepRefines` | src/iwand.c:1142-1253 | Every step of the ten slots gives the answer of a map of unexpired groups with capacity ten, and represents what the map then holds |
| `Fragments.KeepsSlotsOk` | src/iwand.c:1158-1252 | Every step keeps groups distinct and lengths between 1 and the slot buffer |
| `Fragments.LivesFiveSeconds` | src/iwand.c:1176-1179 | A group lives for less than five seconds after its last progress |
| `Fragments.TableRepresents` | src/iwand.c:705-713 | Every table represents the map of what its live slots hold |
| `Fragments.Overlay` | src/iwand.c:1193-1206 | The completed output is, byte for byte, the last fragment where it covers, else what was gathered, else zero |
| `FragmentRuns.RunRefines` | src/iwand.c:1142-1253 | For every run with a non-decreasing clock the slots and the map give the same answers |
| `FragmentRuns.GroupsDoNotInterfere` | src/iwand.c:1170-1253 | While a group lives, what is held for it depends on its own fragments alone, and each of them is accepted without a write |
| `FragmentRuns.AnswersDependOnOwnFragments` | src/iwand.c:1170-1253 | Two runs that agree on what a group held and on its own fragments answer its next fragment, a final one included, in the same way, whatever else arrives in them |
| `FragmentRuns.SlotAnswersDependOnOwnFragments` | src/iwand.c:1170-1253 | The same of the slots, with what is written to the TUN device |
| `FragmentRuns.EvolveIgnoresOthers` | src/iwand.c:1172-1173 | Leaving out other groups' fragments changes nothing for a live group |
| `FragmentRuns.PiecesGather` | src/iwand.c:1183-1192 | Non-final pieces in any order and at any offsets gather in front of each other |
| `FragmentRuns.LastCompletes` | src/iwand.c:1193-1216 | The final fragment is then laid over them |
| `FragmentRuns.AnyOrder` | src/iwand.c:1170-1253 | From every table with room: exactly that is delivered, with the final fragment and not before, for every order, gap and overlap |
| `FragmentRuns.Reassembles` | src/iwand.c:1183-1227 | Hence pieces from the highest offset down and then the final one deliver the payload |
| `FragmentRuns.AscendingOrder` | src/iwand.c:1183-1192 | Any number of pieces in ascending order come out in the opposite order: the payload is whole if and only if that order does not matter for its bytes |
| `FragmentRuns.TwoPiecesStacked` | src/iwand.c:1183-1192 | For two pieces that is the case if and only if they commute |
| `FragmentRuns.AscendingOrderExample` | src/iwand.c:1183-1192 | The pieces 1, 2, 3 in ascending order come out of an empty table as 2, 1, 3 |
| `FragmentRuns.ParseOfFragmentPacket` | src/iwand.c:1147-1166 | A fragment packet parses to the fragment it was built from |
| `FragmentRuns.PackedFields` | src/iwand.c:1153-1160 | The flag, offset and length packed into the bit field are read back |
| `FragmentTable.Table.HandleIpfrag` | src/iwand.c:1142-1253 | The loops over the slot arrays and the copies through the output buffer do what the step on slot values says, and stay inside both buffers |
| `FragmentTable.Table.FindSlot` | src/iwand.c:1172-1173 | Finds the first slot in use for the group |
| `FragmentTable.Table.FindFreeSlot` | src/iwand.c:1235-1241 | Finds the first slot that is free or expired |
| `FragmentTable.Table.Prepend` | src/iwand.c:1183-1226 | Puts a non-final fragment in front of what was gathered, or frees the slot when the result would not fit |
| `FragmentTable.Table.Finish` | src/iwand.c:1193-1215 | Lays the last fragment over what was gathered, decrypts the result in place and frees the slot |
| `FragmentTable.Table.Open` | src/iwand.c:1234-1252 | Opens a slot for a new group, if one is free or expired |
| `FragmentTable.Table.FreeAll` | src/iwand.c:1537-1538 | Frees every slot |
| `SegmentRouting.EcbRoundTrip` | src/iwand.c:829-837 | Block-by-block decryption undoes block-by-block encryption, for every key and every data of whole blocks |
| `SegmentRouting.SrKeyBytes` | src/iwand.c:784-811 | The key is the start of the password, then of the links, then zeros, byte by byte |
| `SegmentRouting.DecapsulationUndoes` | src/iwand.c:1333-1361 | Whatever header, links and padding the router chose, the client gets back the packet that was wrapped |
| `AesColumns.CiphersAgree` | src/iwand.c:237-321 | For every key and block the cipher equals a second definition of AES-128, column by column, with the key expansion of FIPS 197 |
| `AesStandard.ScheduleIsStandard` | src/iwand.c:237-249 | Every byte of the key schedule is that of FIPS 197, section 5.2, stated on bytes: the key, the XOR of two earlier words, and every fourth word rotated, substituted and with the round constant, a power of x |
| `AesStandard.SboxLaw` | src/iwand.c:201-218 | The S-box is the affine transformation of the inverse in the field, for all 256 bytes (FIPS 197, section 5.1.1) |
| `AesStandard.ByteOfConstant` | src/iwand.c:220-223 | The round constants are the powers of x |
| `AesKnownAnswer.KnownAnswer` | src/iwand.c:251-321 | The example of FIPS 197, appendix C.1, is encrypted as the standard says, and decrypted |
| `AesCipher.CipherRoundTrip` | src/iwand.c:237-417 | For every key and block the inverse cipher under the reversed key schedule undoes the cipher, and the reverse |
| `AesCipher.DecryptRetraces` | src/iwand.c:361-417 | Decryption passes through the states of encryption in the opposite order |
| `AesCipher.EncryptRetraces` | src/iwand.c:251-321 | Encryption passes through the states of decryption in the opposite order |
| `AesCipher.AddRoundKeyUndone` | src/iwand.c:351-358 | Adding a round key twice changes nothing, and the swapped schedule has the round keys in the opposite order |
| `AesCipher.ShiftRowsUndone` | src/iwand.c:373-377 | The two row shifts undo each other |
| `AesCipher.ColumnsUndone` | src/iwand.c:384-397 | The two column products undo each other |
| `AesTables.InvSboxUndoesSbox` | src/iwand.c:201-218 | The inverse S-box undoes the S-box on all 256 bytes |
| `AesTables.SboxUndoesInvSbox` | src/iwand.c:324-341 | The S-box undoes the inverse S-box on all 256 bytes |
| `AesTables.XtimeTableIsXtime` | src/iwand.c:254-272 | The table of the encrypting side is multiplication by x in the field of FIPS 197, section 4.2.1 |
| `AesField.TimesAdditive` | src/iwand.c:385-389 | Multiplication by a fixed coefficient distributes over XOR |
| `AesField.RowOfProduct` | src/iwand.c:390-397 | A row of a product of two column matrices is the product of the row with the second one |
| `AesField.ProductUndone` | src/iwand.c:390-397 | Column products with inverse coefficient columns undo each other |
| `AesField.MixInverse` | src/iwand.c:293-300 | The coefficients of the two sides are inverse to each other, in both orders |
| `AesBlocks.MacrosMultiply` | src/iwand.c:385-389 | The untruncated macros, cut to a byte, multiply by 9, 11, 13 and 14 in the field |
| `AesBlocks.MixSums` | src/iwand.c:293-300 | The four sums of the encrypting side are the rows of the MixColumns product |
| `AesBlocks.InvMixSums` | src/iwand.c:390-397 | The four sums of the decrypting side, summed wide and then cut, are the rows of the inverse product |
| `AesBlocks.SetEncryptKey` | src/iwand.c:237-249 | Fills the array with the words of the key schedule, which AesStandard.ScheduleIsStandard gives their meaning |
| `AesBlocks.SetDecryptKey` | src/iwand.c:343-359 | The swaps leave the eleven round keys in the opposite order |
| `AesBlocks.AddKey` | src/iwand.c:301-303 | Adds the round key in place |
| `AesBlocks.SubAndShift` | src/iwand.c:283-291 | Substitutes and shifts rows through the temporary block |
| `AesBlocks.UnshiftAndUnsub` | src/iwand.c:372-380 | Shifts rows back and substitutes back |
| `AesBlocks.MixColumns` | src/iwand.c:292-300 | Multiplies every column in place |
| `AesBlocks.InvMixColumns` | src/iwand.c:390-397 | Multiplies every column in place by the inverse coefficients |
| `AesBlocks.EncryptBlock` | src/iwand.c:251-321 | Computes the cipher |
| `AesBlocks.DecryptBlock` | src/iwand.c:361-417 | Computes the inverse cipher |
| `Md5.Context.Update` | src/iwand.c:154-168 | Whatever was fed in before, the state covers the whole blocks of the message so far and the buffer holds exactly the rest; counters wrap at 64 bits |
| `Md5.Context.CompressBlocks` | src/iwand.c:160-166 | Completes the buffered block and compresses the whole blocks that follow |
| `Md5.Context.TransformBlocks` | src/iwand.c:163-164 | The loop with its 32-bit test stops exactly where less than a block is left, for every length for which the test can |
| `Md5.LoopTest` | src/iwand.c:163 | The exact condition: the test lets the loop go on up to the place where it has to stop, and ends it there if and only if the sum does not wrap around |
| `Md5.ShortInput` | src/iwand.c:154-168 | It holds for every length below 2^32 - 63, whatever was fed in before |
| `Md5.FirstInput` | src/iwand.c:189-195 | And for every 32-bit length of a first update |
| `Md5.LongUpdateOverruns` | src/iwand.c:163 | The failing case: one byte and then an update of 2^32 - 1 bytes |
| `Md5.Context.Final` | src/iwand.c:170-187 | The digest is the one-shot digest (RFC 1321, sections 3.1 to 3.5) of everything fed in, however it was split |
| `Md5.Hash` | src/iwand.c:189-195 | One update and the end give the one-shot digest, for every length that 32 bits can hold |
| `Md5.FoldBlock` | src/iwand.c:162-164 | Compressing one more block extends the fold |
| `Md5.CountModulo` | src/iwand.c:156-157 | The wrapped byte counter still gives the place in the block |
| `Md5.BitCount` | src/iwand.c:174 | The wrapped byte counter still gives the wrapped bit counter |
| `Md5.PaddingIs` | src/iwand.c:177-178 | The two cases of the padding length give the padding of RFC 1321, section 3.1 |
| `Md5.LittleEndianBytes` | src/iwand.c:175-176 | The loop writes the eight bytes of the bit counter, lowest first |
| `Md5.PadLayout` | src/iwand.c:170-187 | The padded message is the message, 0x80, fewer than 64 zeros and eight bytes that read as its number of bits modulo 2^64 (RFC 1321, sections 3.1 and 3.2) |
| `Md5.StartBytes` | src/iwand.c:145-152 | The start state is the one of RFC 1321, section 3.3, byte by byte |
| `Wire.ParseOfSerialized` | server/protocol.go:58-80 | Parsing undoes serialising if and only if every value has at most 253 bytes |
| `Wire.SerializedOfParse` | server/protocol.go:63-80 | Every accepted input is the serialisation of what was read, and the client reads the same list |
| `Wire.AcceptedInputs` | server/protocol.go:63-80 | An input is accepted if and only if some list serialises to it |
| `Wire.PrefixIsLongest` | src/iwand.c:1041-1090 | The client reads the longest list of items its input starts with |
| `Wire.XorDataTwice` | server/protocol.go:162-166 | XOR encryption undoes itself |
| `Wire.XorDataAddsTheKey` | src/iwand.c:423-427 | What it adds to the bytes is the key, over and over |
| `Wire.OneSignature` | src/iwand.c:753-764 | Of all signatures exactly one verifies: the digest of the header and the bytes "mw" |
| `Wire.SamePadding` | src/iwand.c:884-888 | Two passwords give the same block of plain text if and only if their first sixteen bytes, filled up with zeros, agree |
| `Wire.ShortTextsDiffer` | src/iwand.c:884-888 | Passwords of at most sixteen bytes without zeros do so only when they are equal |
| `Wire.PasswordRecovered` | server/protocol.go:134-145 | Decrypting the block under the digest of the user name gives back the first sixteen bytes of the password |
| `Wire.DerivedKeyIsHalf` | server/protocol.go:155-160 | The XOR key is the start of the digest of user name and password |
| `Layouts.OpenLayout` | src/iwand.c:846-913 | The OPEN packet byte by byte: header, signature, MTU, user name, password block and the two optional items |
| `Layouts.AckLayout` | server/protocol.go:175-204 | The OPENACK packet byte by byte: header, signature, MTU, address, DNS servers and flag |
| `Layouts.OtherLayouts` | server/protocol.go:206-231 | DATA, DATA_ENC, CLOSE, refusal, echo request (60 bytes) and echo answer, byte by byte |
| `Wire.LittleEndianRoundTrip` | src/iwand.c:936-940 | Numbers written lowest byte first are read back |
| `Wire.Signed` | server/protocol.go:41-56 | A signed packet verifies, and signing leaves header and body alone |
| `Buffers.XorRange` | src/iwand.c:423-427 | XORs exactly the given range of a buffer in place |
| `Protocol.ParseTLVs` | server/protocol.go:63-80 | The loop returns the parsed list, or an error for every malformed input |
| `Protocol.ParseOpenPacket` | server/protocol.go:82-132 | The loop over the items reads the request, with every error case; the contents are given meaning by Handshake.ServerReadsOpen |
| `Protocol.SignPacket` | server/protocol.go:41-46 | Writes the signature in place and nothing else |
| `Protocol.StartSigned` | server/protocol.go:207-211 | Header fields and signature of a signed packet, with room behind them |
| `Protocol.BuildOpenReject` | server/protocol.go:168-173 | Builds the signed refusal |
| `Protocol.BuildEchoResp` | server/protocol.go:206-214 | Builds the signed echo answer with the payload behind the signature |
| `Protocol.BuildDataPacket` | server/protocol.go:216-231 | Builds header and payload, encrypted in place if the session is |
| `Protocol.AppendTLV` | server/protocol.go:58-61 | Appends one item, with the length byte cut to eight bits |
| `Protocol.BuildOpenAck` | server/protocol.go:175-204 | Builds the packet signed in place and the serialised items behind it |
| `Ipv4.ParseOfPacket` | server/ip.go:16-47 | A packet built from its fields is parsed to itself and its source and destination, whatever follows it in the buffer |
| `Ipv4.ParsesExactly` | server/ip.go:16-47 | A payload is accepted if and only if it starts with such a packet; source and destination are bytes 12 to 15 and 16 to 19 |
| `Ipv4.CutPacketParses` | server/ip.go:16-47 | The packet cut out of a payload has exactly its total length, is itself a packet that fills its buffer, and keeps its addresses |
| `Config.ValidateUsers` | server/config.go:117-146 | The loop accepts if and only if every user is well formed and no two share a name or an address |
| `Config.OneMoreUser` | server/config.go:119-146 | One more user is fine if and only if it is well formed and its name and address are new |
| `Config.ServerConfig.ValidateExit` | server/config.go:163-190 | Accepts if and only if the exit settings are acceptable with defaults filled in, and writes exactly those defaults |
| `Config.ServerConfig.Validate` | server/config.go:97-161 | Accepts if and only if the whole configuration is acceptable with defaults filled in |
| `Config.ServerConfig.Normalize` | server/config.go:192-232 | An accepted configuration gives the listen address, MTU, DNS servers and exit settings with defaults filled in, the address of the tunnel in exit mode, and a user table with unique names, unique non-zero addresses and derived keys |
| `Config.BuildUsers` | server/config.go:217-230 | The loop builds that table: its names are those of the users, and each entry is the user's |
| `Sessions.StepKeepsTableOk` | server/server.go:133-149 | Every packet keeps one session for each remote, user and address, and a new session never lands on a live one whatever identifiers are drawn |
| `Sessions.InsertedTableOk` | server/server.go:206-210 | Replacing the sessions of a remote and a user by a new one keeps the table sound |
| `Sessions.OneHolder` | server/server.go:349-357 | An address has at most one holder |
| `Server.IndexedWithout` | server/server.go:378-383 | Deleting a session from both maps leaves them exact indexes of each other |
| `Server.IndexedWith` | server/server.go:208-209 | So does adding one under a free key and a free address |
| `Server.SecondMap` | server/server.go:370-383 | The first map determines the second |
| `Server.Server.RemoveSession` | server/server.go:378-383 | Deletes the session from both maps, and nothing else |
| `Server.Server.RemoveSessionsForRemoteOrUser` | server/server.go:370-376 | Whatever order the keys come in while entries are deleted, exactly the sessions that match neither the remote nor the user stay, in both maps |
| `Server.Server.Insert` | server/server.go:206-210 | The critical section of an OPEN: both maps stay exact, nothing live is overwritten |
| `Server.Server.HandleOpen` | server/server.go:151-215 | Table and answer are those of the one-table step |
| `Server.Server.SessionForPacket` | server/server.go:337-347 | Finds the session of remote, token and session id |
| `Server.Server.OutboundForAddress` | server/server.go:349-357 | The second map finds the one session that holds the address, if there is one |
| `Server.Server.HandleEchoReq` | server/server.go:217-228 | Answers exactly verified packets of live sessions |
| `Server.Server.HandleClose` | server/server.go:230-243 | Removes exactly the session of a verified packet |
| `Server.Server.HandleData` | server/server.go:245-294 | What is sent is what the one-table step sends |
| `Server.Server.HandleExitPacket` | server/server.go:315-327 | The same for a packet from the exit device |
| `Server.Server.HandlePacket` | server/server.go:133-149 | Every packet leaves the two maps exact and does to the sessions what the one-table step does |
| `ClientEngine.PktSign` | src/iwand.c:741-750 | Signs in place through the streaming digest, and leaves header and body alone |
| `ClientEngine.PktVerify` | src/iwand.c:753-764 | Accepts if and only if the packet is long enough and carries the digest of its header |
| `ClientEngine.Client.Startup` | src/iwand.c:1797-1816 | Keys, resolver and socket leave the record in the start state |
| `ClientEngine.Client.DeriveXorKey` | src/iwand.c:770-778 | The key is the first half of the digest of user name and password |
| `ClientEngine.Client.SrSetupKeys` | src/iwand.c:784-820 | The key buffer gives the padded key; mode 2 becomes mode 1; both schedules belong to that key |
| `ClientEngine.Client.ResolveServer` | src/iwand.c:1472-1503 | A numeric server always resolves, a name if the resolver answers |
| `ClientEngine.Client.ReadTerm` | src/iwand.c:1053-1086 | One item changes exactly the fields it carries |
| `ClientEngine.Client.ReadTerms` | src/iwand.c:1041-1090 | The loop folds over the longest list of items |
| `ClientEngine.Client.HandleOpenack` | src/iwand.c:1031-1130 | Record and effects are those of the step on values |
| `ClientEngine.Client.SetUpTun` | src/iwand.c:1105-1117 | Sets address and MTU, or closes the session when that fails |
| `ClientEngine.Client.HandleData` | src/iwand.c:1259-1280 | The same for a data packet, through the local buffer |
| `ClientEngine.Client.HandleEchoResp` | src/iwand.c:1282-1298 | The same for an echo answer |
| `ClientEngine.Client.HandleClose` | src/iwand.c:1300-1308 | The same for a CLOSE |
| `ClientEngine.Client.HandleOpenrej` | src/iwand.c:1310-1315 | The same for a refusal |
| `ClientEngine.Client.HandleIpfrag` | src/iwand.c:1142-1145 | The same for a fragment, through the slot arrays |
| `ClientEngine.Client.DecryptAt` | src/iwand.c:832-836 | Decrypts one block of a buffer and leaves the rest alone |
| `ClientEngine.Client.SrDecrypt` | src/iwand.c:822-839 | The loop decrypts whole blocks in place, or leaves the data alone for the larger block size, or refuses |
| `ClientEngine.Client.Decapsulate` | src/iwand.c:1333-1365 | Strips headers and padding in the local buffer, or drops the packet |
| `ClientEngine.Client.HandleSegrt` | src/iwand.c:1329-1390 | Record and effects are those of the step on values |
| `ClientEngine.Client.HandleRecv` | src/iwand.c:1392-1436 | The same for every packet; only accepted ones count as a sign of life |
| `ClientEngine.Client.HandleTunRecv` | src/iwand.c:1442-1466 | Sends the payload framed and, if the session is encrypted, XORed in place |
| `ClientEngine.Client.PasswordItem` | src/iwand.c:874-894 | The block is the padded password encrypted under the digest of the user name |
| `ClientEngine.Client.BuildOpenPkt` | src/iwand.c:846-913 | Builds the signed OPEN with its serialised items; Handshake.ServerReadsOpen says what it means |
| `ClientEngine.Client.BuildEchoReq` | src/iwand.c:919-950 | Builds the signed echo request |
| `ClientEngine.Client.SendClose` | src/iwand.c:971-984 | Sends a signed CLOSE from an established session with an open socket |
| `ClientEngine.Client.ClientReset` | src/iwand.c:1509-1555 | Record and effects are those of the reset on values; every slot is free |
| `ClientEngine.Client.AwaitAnswer` | src/iwand.c:1594-1609 | Gives up, repeats the OPEN or waits on |
| `ClientEngine.Client.KeepAlive` | src/iwand.c:1611-1626 | Resets a silent session, or sends an echo request every second tick |
| `ClientEngine.Client.TimerTick` | src/iwand.c:1561-1636 | Record and effects are those of the tick on values |

## Left out

- Md5.Compression: the 64 straight-line operations of `md5_transform` are an arbitrary function; what is proved is the buffering, padding and counting around it.
- The server's `crypto/md5` and `crypto/aes` are taken to be the functions the client computes; both sides share one digest parameter and one cipher.
- Sockets, TUN devices, hook scripts, signals and daemonising: a send or write is an effect, and a failing setup is a success flag. Setting address and MTU of the TUN device is one flag. Failing sends and writes, which the source logs and ignores, are not modelled.
- The comparison of a datagram's source with the server's address (`src/iwand.c:1865-1869`) happens before the client's handlers and is not modelled: every packet handed to them counts.
- ClientRuns.Forward: the clock of a run does not go back and stays below 2^32 seconds, the range in which the unsigned differences of the source are elapsed times. The source reads the clock several times in a step, the model once.
- FragmentRuns.ClockFrom: the same for runs of fragments.
- Statistics counters, log output, the slot field `off`, and the session times `createdAt` and `lastSeen`: written and never read by the logic.
- `rt_magic` is always zero in the source and is a constant in the echo request.
- Text parsing of the client configuration, JSON decoding and Go's address parsers: a parsed configuration is a value within the ranges `cfg_load` and `cfg_valid` let through, and the parsers of `net/netip` are functions the server configuration is given. A numeric fallback in `srlinks` is part of that parsing.
- Config.ServerConfig.Validate: says whether a configuration is accepted, not which of several errors is reported.
- Text buffers of the client are byte strings without the terminating NUL, and user names and passwords have at most 31 bytes, as their buffers hold.
- Tokens, session ids and addresses are the bytes on the wire; a little-endian machine is assumed where the source copies an integer into a packet.
- A remote of the server is an address and a port; its text form, which the source uses as a key, is taken to determine it.
- Md5.Context.Update: takes the lengths for which the 32-bit loop test of the source ends the loop where it has to, by `Md5.LoopTest`; for the others the source reads beyond its input, which has no value to model. Md5.Context.TransformBlocks and Md5.Context.CompressBlocks have the same condition.
- Server.Server.SessionForPacket: leaves out the write of `lastSeen`, which is never read.
- Deliveries.FragmentedPayloadArrives: the pieces arrive from the highest offset down and fit a slot; `Deliveries.GroupArrives` says what every other order gives. A group that outgrows its slot is dropped, which `FragmentRuns.RunRefines` covers.
- Config.ServerConfig.Normalize: keeps the address of the tunnel prefix and not its length, which only the set-up of the exit device reads.
- Tunnel.EndToEnd: for registered clients, whose passwords are those of the server; `Handshake.HandshakeLinks` covers every accepted client.
- Tunnel.TunnelIsTransparent: the payload has at most 2040 bytes, the room a TUN read leaves in the client's packet buffer.
- Routing.EveryInterleavingIsAtomic: interleaves on the one-table specification, which `Server.Server` is proved to follow step by step; the mutex itself is not modelled. Shutting down is not modelled.
- The LuCI interface, init scripts, packaging and the FreeBSD port have no logic that these properties depend on.
