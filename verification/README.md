# RtpParticipant in Dafny

A model of `RtpParticipant` from the efflux RTP library. It is the in-memory record of a remote peer in an RTP session:

- the peer's data and control endpoints;
- its 32-bit SSRC (synchronisation source identifier);
- its optional SDES descriptive strings (CNAME, NAME, EMAIL, PHONE, LOC, TOOL, NOTE and the PRIV prefix/value pair of section 6.5 of RFC 3550).

The model has four files:

- `wrappers.dfy`: `Option` stands for Java's `null`. `Result` stands for a constructor that throws.
- `sdes.dfy` (module `SdesMerge`): the descriptive fields as a `Description` value, the SDES item and chunk types, and the merge as pure functions. `MergeItem` is one iteration of the item loop. `MergeItems` is the whole loop.
- `sdes_properties.dfy` (module `SdesProperties`): lemmas about the merge. They cover how exact the change flag is, what happens when an item or chunk is applied again, and the consequences of the TOOL/NOTE comparison.
- `participant.dfy` (module `Session`): the class `RtpParticipant`, whose methods update its fields in place. It also holds the constructor guards, the endpoint and packet types, and the random source, modelled as an oracle class `SsrcGenerator`.

`UpdateFromSdesChunk` runs the source's loop over the items and calls the setters. It is proved against `MergeItems`: the new descriptive fields are the merge of the old ones, and the returned flag is true iff the SSRC differed or the merge wrote.

The TOOL and NOTE branches of the merge compare the item's value with `location`, not with `tool` or `note`. The class keeps this exactly as written, because that is what the program does, and marks it in comments as a likely copy-paste defect. Two lemmas show its consequences:

- `ToolUpdateNotIdempotent`: for example, `[Tool("rtp-tool")]` merged into a record with no `location` is written, and reported, again on a second merge. The general statement is `ReapplyItem`: a TOOL or NOTE item whose value is non-null and differs from `location` writes again every time it is re-applied.
- `ToolSuppressedByLocation`: a TOOL value equal to `location` is dropped.

The evidently intended step, which compares each field with itself, is defined beside it as `MergeItemIntended`, with `MergeItemsIntended` as its loop. For it, re-merging any chunk whose item kinds are distinct writes nothing (`MergeTwiceUnmodifiedIntended`). See "## Findings".

The model follows the code, including where it departs from what the record is meant to guarantee:

- Generated SSRCs lie in 0..0x7ffffffe, because `nextInt(Integer.MAX_VALUE)` excludes its bound. They do not reach 2^31 − 1.
- The PRIV prefix and value are written together, but that paired write can store null into one half (`PrivPairCanErase`). So they are not kept "both or neither".
- Merging a chunk twice is not idempotent in general. It fails for a TOOL/NOTE value that is non-null and differs from `location`. It can also fail when a chunk repeats an item kind with different values. A repeat with equal values is harmless. `MergeTwiceUnmodified` proves idempotence under a sufficient condition: each kind occurs once, and every TOOL/NOTE value is null or equals the resulting `location`.
- The change flag records writes, not net change (`WriteWithoutNetChange`).

## Model

| member | source | states |
|---|---|---|
| `SdesMerge.WillCauseModification` | src/main/java/org/factor45/efflux/session/RtpParticipant.java:227-229 | a candidate causes no modification exactly when it is null or equal to the current value |
| `SdesMerge.MergeItem` | src/main/java/org/factor45/efflux/session/RtpParticipant.java:125-178 | one item writes only the fields of its kind; when it writes it stores its value (PRIV: prefix and value as a pair, either possibly null); when it does not write nothing changes; CNAME/NAME/EMAIL/PHONE/LOCATION write iff the value is non-null and differs from their own field; TOOL and NOTE iff it differs from `location`; PRIV iff the prefix or the value is non-null and differs; unrecognised items never write; no field but the PRIV pair goes from present to absent |
| `SdesMerge.MergeItems` | src/main/java/org/factor45/efflux/session/RtpParticipant.java:124-180 | over a whole item sequence: no write implies the description is unchanged, and no field but the PRIV pair is ever turned from a value back to null |
| `SdesProperties.WroteIffSomeItemWrote` | src/main/java/org/factor45/efflux/session/RtpParticipant.java:118-181 | the loop's flag is set iff some item, applied to the state left by the items before it, wrote (no false positives or negatives) |
| `SdesProperties.ReapplyItem` | src/main/java/org/factor45/efflux/session/RtpParticipant.java:126-175 | applying an item right after itself writes again iff it is TOOL or NOTE with a non-null value different from `location` |
| `SdesProperties.MergeTwiceUnmodified` | src/main/java/org/factor45/efflux/session/RtpParticipant.java:118-182 | re-merging the same items writes nothing and changes nothing when each kind occurs once and every TOOL/NOTE value is null or equals the resulting `location` |
| `SdesProperties.ToolUpdateNotIdempotent` | src/main/java/org/factor45/efflux/session/RtpParticipant.java:156-161 | for example, the chunk `[Tool("rtp-tool")]` merged into an empty record is written and reported again on a second merge, because it is compared with `location`; `ReapplyItem` states the general single-item fact |
| `SdesProperties.ToolSuppressedByLocation` | src/main/java/org/factor45/efflux/session/RtpParticipant.java:150-161 | a TOOL value equal to the `location` just set is not stored, though `tool` is null |
| `SdesProperties.PrivPairCanErase` | src/main/java/org/factor45/efflux/session/RtpParticipant.java:168-175 | a PRIV item with a new prefix and a null value erases the stored PRIV value |
| `SdesProperties.PrivSetThenSettled` | src/main/java/org/factor45/efflux/session/RtpParticipant.java:168-175 | PRIV ("x-foo", "bar") on a record with no PRIV data sets both halves and reports a change; re-applying it reports none |
| `SdesProperties.WriteWithoutNetChange` | src/main/java/org/factor45/efflux/session/RtpParticipant.java:126-131 | overwriting `cname` and then restoring it reports a modification although the description ends unchanged |
| `SdesMerge.MergeItemIntended` | src/main/java/org/factor45/efflux/session/RtpParticipant.java:156-167 | the corrected step: TOOL writes iff its value is non-null and differs from `tool`, NOTE likewise against `note`; every other kind behaves exactly as `MergeItem`; writes only the fields of its kind; no field but the PRIV pair is erased (the paired PRIV write can still erase one half) |
| `SdesMerge.MergeItemsIntended` | src/main/java/org/factor45/efflux/session/RtpParticipant.java:124-180 | the item loop over the corrected step: no write implies no change, and no field but the PRIV pair is erased |
| `SdesProperties.ReapplyItemIntended` | src/main/java/org/factor45/efflux/session/RtpParticipant.java:126-175 | with the corrected step, no item writes when applied right after itself |
| `SdesProperties.MergeTwiceUnmodifiedIntended` | src/main/java/org/factor45/efflux/session/RtpParticipant.java:156-167 | with the corrected step, re-merging items of distinct kinds writes nothing and changes nothing, with no condition on `location` |
| `SdesProperties.ToolUpdateIdempotentIntended` | src/main/java/org/factor45/efflux/session/RtpParticipant.java:156-161 | with the corrected step, the TOOL chunk of `ToolUpdateNotIdempotent` is written once and not again |
| `SdesProperties.ToolStoredDespiteLocationIntended` | src/main/java/org/factor45/efflux/session/RtpParticipant.java:150-161 | with the corrected step, the TOOL value of `ToolSuppressedByLocation` is stored |
| `Session.CheckArguments` | src/main/java/org/factor45/efflux/session/RtpParticipant.java:55-64 | no error iff ssrc is in [0, 0xffffffff] and both ports in [0, 65536]; the SSRC error iff the ssrc is out of range; the port error iff the ssrc is valid and a port is out of range |
| `Session.SsrcGenerator.constructor` | src/main/java/org/factor45/efflux/session/RtpParticipant.java:36 | the shared generator starts at the first value of its stream |
| `Session.SsrcGenerator.Next` | src/main/java/org/factor45/efflux/session/RtpParticipant.java:113 | hands out the next value of the stream, always in [0, 0x7ffffffe] |
| `Session.RtpParticipant.Raw` | src/main/java/org/factor45/efflux/session/RtpParticipant.java:74-75 | the bare record: given endpoints and SSRC, every descriptive field null |
| `Session.RtpParticipant.Create` | src/main/java/org/factor45/efflux/session/RtpParticipant.java:55-68 | fails with the first violated guard and produces no record; otherwise a new record with that ssrc, both endpoints on the given host with the given ports, no descriptive fields |
| `Session.RtpParticipant.CreateWithGeneratedSsrc` | src/main/java/org/factor45/efflux/session/RtpParticipant.java:70-72 | draws one SSRC first (even when a port is then rejected); fails iff a port is out of range; otherwise the record carries the drawn SSRC |
| `Session.RtpParticipant.CreateFromUnexpectedDataPacket` | src/main/java/org/factor45/efflux/session/RtpParticipant.java:79-87 | data endpoint = origin, control endpoint = origin's host with port + 1, ssrc = the packet's, no descriptive fields |
| `Session.RtpParticipant.CreateFromSdesChunk` | src/main/java/org/factor45/efflux/session/RtpParticipant.java:89-98 | control endpoint = origin, data endpoint = origin's host with port − 1, ssrc = the chunk's, descriptive fields = the chunk merged into an empty record |
| `Session.RtpParticipant.GenerateNewSsrc` | src/main/java/org/factor45/efflux/session/RtpParticipant.java:112-114 | the next value of the shared generator, in [0, 0x7ffffffe] |
| `Session.RtpParticipant.UpdateFromSdesChunk` | src/main/java/org/factor45/efflux/session/RtpParticipant.java:118-182 | afterwards ssrc = the chunk's ssrc, the addresses are unchanged, the descriptive fields are the items merged in order; returns true iff the ssrc differed or some item wrote |
| `Session.RtpParticipant.UpdateDataAddress` | src/main/java/org/factor45/efflux/session/RtpParticipant.java:184-186 | replaces the data endpoint and nothing else |
| `Session.RtpParticipant.UpdateControlAddress` | src/main/java/org/factor45/efflux/session/RtpParticipant.java:188-190 | replaces the control endpoint and nothing else |
| `Session.RtpParticipant.ResolveSsrcConflict` | src/main/java/org/factor45/efflux/session/RtpParticipant.java:192-199 | on return ssrc ≠ the value to avoid and the result is the stored ssrc; an ssrc that did not collide is kept with no draw; otherwise it is the first later draw that differs, every draw before it having collided |
| `Session.RtpParticipant.ResolveSsrcConflictAmong` | src/main/java/org/factor45/efflux/session/RtpParticipant.java:201-209 | on return ssrc ∉ the set and the result is the stored ssrc; a non-member ssrc is kept with no draw; otherwise it is the first later draw outside the set |
| `Session.RtpParticipant.UpdateSsrc` | src/main/java/org/factor45/efflux/session/RtpParticipant.java:217-223 | rejects an ssrc outside [0, 0xffffffff] with the SSRC error and leaves the record unchanged; otherwise stores exactly that ssrc; touches nothing else |
| `Session.RtpParticipant.SetCname` | src/main/java/org/factor45/efflux/session/RtpParticipant.java:249-251 | sets `cname`, every other field unchanged |
| `Session.RtpParticipant.SetName` | src/main/java/org/factor45/efflux/session/RtpParticipant.java:257-259 | sets `name`, every other field unchanged |
| `Session.RtpParticipant.SetEmail` | src/main/java/org/factor45/efflux/session/RtpParticipant.java:265-267 | sets `email`, every other field unchanged |
| `Session.RtpParticipant.SetPhone` | src/main/java/org/factor45/efflux/session/RtpParticipant.java:273-275 | sets `phone`, every other field unchanged |
| `Session.RtpParticipant.SetLocation` | src/main/java/org/factor45/efflux/session/RtpParticipant.java:281-283 | sets `location`, every other field unchanged |
| `Session.RtpParticipant.SetTool` | src/main/java/org/factor45/efflux/session/RtpParticipant.java:289-291 | sets `tool`, every other field unchanged |
| `Session.RtpParticipant.SetNote` | src/main/java/org/factor45/efflux/session/RtpParticipant.java:297-299 | sets `note`, every other field unchanged |
| `Session.RtpParticipant.SetPriv` | src/main/java/org/factor45/efflux/session/RtpParticipant.java:309-312 | sets the PRIV prefix and value together, either possibly null, every other field unchanged |
| `Session.RemergeReportsNoChange` | src/main/java/org/factor45/efflux/session/RtpParticipant.java:118-182 | on a record, the first `UpdateFromSdesChunk` reports whether the SSRC differed or an item wrote; a second one with the same chunk returns false under the conditions of `MergeTwiceUnmodified`; the addresses stay unchanged |

## Findings

| source | as written | input that shows it | evidently intended | confidence | as-written member | corrected member |
|---|---|---|---|---|---|---|
| src/main/java/org/factor45/efflux/session/RtpParticipant.java:156-167 | the TOOL and NOTE branches decide whether to write `tool`/`note` by comparing the item's value with `location` | a chunk `[Tool("rtp-tool")]` on a record with `location` null: every merge of it writes `tool` and reports a modification | compare TOOL with `tool` and NOTE with `note`, so that re-merging a chunk of distinct kinds reports no change | high; not executed | `SdesProperties.ToolUpdateNotIdempotent` | `SdesProperties.MergeTwiceUnmodifiedIntended` |

The class `RtpParticipant` keeps the as-written step, because it models what the program does. The corrected definitions `MergeItemIntended` and `MergeItemsIntended` state the intended behaviour beside it.

## Left out

- `java.util.Random`, its `System.nanoTime` seed, its distribution and its thread safety: the generator is an oracle stream of values in [0, 0x7ffffffe].
- `InetSocketAddress`: hostname resolution, and its own port check. The model does not capture that it throws for port + 1 = 65536 or port − 1 = −1 in the two factories, nor that it rejects 65536 in the explicit constructor. `Create` also omits one error path: for a null host, `new InetSocketAddress((String) null, port)` throws `IllegalArgumentException` after the three guards pass. The model's `host: string` cannot be null. Endpoints are an abstract (host, port) pair, and the host is the same text whether it came from a host name or from an origin's address.
- Parsing of `DataPacket`, `SdesChunk` and `SdesChunkItem`: these live in other files, which are not part of this model. They are abstract inputs here; their SSRCs are not range-checked, as in the source.
- `toString`: a log rendering whose text depends on Java's formatting of addresses and longs.
- The getters: they are plain field reads.
- `UpdateDataAddress` and `UpdateControlAddress`: in Java they accept a null address and store it without error. `Endpoint` cannot hold null, so the model cannot represent that state.
- Null inputs that throw `NullPointerException` in Java are excluded by the model's types:
  - a null `origin` in the two factories;
  - a null chunk in `UpdateFromSdesChunk`;
  - a null collection in `ResolveSsrcConflictAmong`.
- `Session.RtpParticipant.ResolveSsrcConflict`: requires that some later draw differs from the value to avoid, because the Java loop has no bound and a Dafny method must terminate.
- `Session.RtpParticipant.ResolveSsrcConflictAmong`: requires that some later draw falls outside the set, for the same reason.
