/**
 * The record of a remote peer in an RTP session: its data and control
 * endpoints, its SSRC and its SDES descriptive fields, updated in place.
 */
module Session {
  import opened Wrappers
  import opened SdesMerge
  import SdesProperties

  /** A network endpoint, kept abstract: a host and a port number. */
  datatype Endpoint = Endpoint(host: string, port: int)

  /** The part of a data packet the record uses: its SSRC. */
  datatype DataPacket = DataPacket(ssrc: int)

  /** SSRCs are unsigned 32-bit values. */
  predicate ValidSsrc(s: int) { 0 <= s <= 0xffffffff }

  /** The port range the constructor admits (it lets 65536 through). */
  predicate ValidPort(p: int) { 0 <= p <= 65536 }

  /** The two `IllegalArgumentException`s: the SSRC message, and the port message shared by both ports. */
  datatype ArgumentError = SsrcOutOfRange | PortOutOfRange

  /**
   * The guards of the explicit constructor, in their order: the SSRC first,
   * then the data port, then the control port.
   */
  function CheckArguments(dataPort: int, controlPort: int, ssrc: int): (e: Option<ArgumentError>)
    ensures e.None? <==> ValidSsrc(ssrc) && ValidPort(dataPort) && ValidPort(controlPort)
    ensures e == Some(SsrcOutOfRange) <==> !ValidSsrc(ssrc)
    ensures e == Some(PortOutOfRange) <==> ValidSsrc(ssrc) && !(ValidPort(dataPort) && ValidPort(controlPort))
  {
    if !ValidSsrc(ssrc) then Some(SsrcOutOfRange)
    else if !ValidPort(dataPort) then Some(PortOutOfRange)
    else if !ValidPort(controlPort) then Some(PortOutOfRange)
    else None
  }

  /** A value of `nextInt(Integer.MAX_VALUE)`: 31 bits, 0 to 0x7ffffffe. */
  type Draw = x: int | 0 <= x < 0x7fffffff

  /**
   * The process-wide random source as an oracle: `stream(k)` is the k-th
   * value it hands out, and `drawn` counts the values handed out so far.
   */
  class SsrcGenerator {
    const stream: nat -> Draw
    var drawn: nat

    constructor (stream: nat -> Draw)
      ensures this.stream == stream && drawn == 0
    {
      this.stream := stream;
      drawn := 0;
    }

    /** The next value of the stream. */
    method Next() returns (x: Draw)
      modifies this`drawn
      ensures x == stream(old(drawn)) && drawn == old(drawn) + 1
    {
      x := stream(drawn);
      drawn := drawn + 1;
    }
  }

  class RtpParticipant {
    var dataAddress: Endpoint
    var controlAddress: Endpoint
    var ssrc: int
    var name: Text
    var cname: Text
    var email: Text
    var phone: Text
    var location: Text
    var tool: Text
    var note: Text
    var privPrefix: Text
    var priv: Text

    /** The descriptive fields as one value. */
    function Sdes(): Description
      reads this
    {
      Description(name, cname, email, phone, location, tool, note, privPrefix, priv)
    }

    /**
     * The bare record the factories start from, with the addresses they
     * assign; Java's default leaves the SSRC 0 until it is set.
     */
    constructor Raw(dataAddress: Endpoint, controlAddress: Endpoint, ssrc: int)
      ensures this.dataAddress == dataAddress && this.controlAddress == controlAddress
      ensures this.ssrc == ssrc && Sdes() == NoDescription
    {
      this.dataAddress := dataAddress;
      this.controlAddress := controlAddress;
      this.ssrc := ssrc;
      name, cname, email, phone, location := None, None, None, None, None;
      tool, note, privPrefix, priv := None, None, None, None;
    }

    /**
     * The explicit constructor: fails, producing no record, when the SSRC or
     * a port is out of range; otherwise both endpoints share the host.
     */
    static method Create(host: string, dataPort: int, controlPort: int, ssrc: int)
      returns (r: Result<RtpParticipant, ArgumentError>)
      ensures r.Failure? <==> CheckArguments(dataPort, controlPort, ssrc).Some?
      ensures r.Failure? ==> Some(r.error) == CheckArguments(dataPort, controlPort, ssrc)
      ensures r.Success? ==>
        fresh(r.value) && r.value.ssrc == ssrc &&
        r.value.dataAddress == Endpoint(host, dataPort) &&
        r.value.controlAddress == Endpoint(host, controlPort) &&
        r.value.Sdes() == NoDescription
    {
      var check := CheckArguments(dataPort, controlPort, ssrc);
      if check.Some? {
        return Failure(check.value);
      }
      var p := new RtpParticipant.Raw(Endpoint(host, dataPort), Endpoint(host, controlPort), ssrc);
      return Success(p);
    }

    /**
     * The constructor without an SSRC: one is drawn first, so the generator
     * advances even when a port is then rejected.
     */
    static method CreateWithGeneratedSsrc(host: string, dataPort: int, controlPort: int, rng: SsrcGenerator)
      returns (r: Result<RtpParticipant, ArgumentError>)
      modifies rng`drawn
      ensures rng.drawn == old(rng.drawn) + 1
      ensures r.Failure? <==> !(ValidPort(dataPort) && ValidPort(controlPort))
      ensures r.Failure? ==> r.error == PortOutOfRange
      ensures r.Success? ==>
        fresh(r.value) && r.value.ssrc == rng.stream(old(rng.drawn)) &&
        r.value.dataAddress == Endpoint(host, dataPort) &&
        r.value.controlAddress == Endpoint(host, controlPort) &&
        r.value.Sdes() == NoDescription
    {
      var s := GenerateNewSsrc(rng);
      r := Create(host, dataPort, controlPort, s);
    }

    /**
     * A record inferred from an unexpected data packet: the origin is the
     * data endpoint and the control endpoint is the next port on its host.
     */
    static method CreateFromUnexpectedDataPacket(origin: Endpoint, packet: DataPacket)
      returns (p: RtpParticipant)
      ensures fresh(p)
      ensures p.dataAddress == origin
      ensures p.controlAddress == Endpoint(origin.host, origin.port + 1)
      ensures p.ssrc == packet.ssrc && p.Sdes() == NoDescription
    {
      p := new RtpParticipant.Raw(origin, Endpoint(origin.host, origin.port + 1), packet.ssrc);
    }

    /**
     * A record inferred from an SDES chunk: the origin is the control
     * endpoint, the data endpoint is the previous port on its host, and the
     * rest is the chunk merged into a blank record.
     */
    static method CreateFromSdesChunk(origin: Endpoint, chunk: SdesChunk)
      returns (p: RtpParticipant)
      ensures fresh(p)
      ensures p.controlAddress == origin
      ensures p.dataAddress == Endpoint(origin.host, origin.port - 1)
      ensures p.ssrc == chunk.ssrc
      ensures p.Sdes() == MergeItems(NoDescription, chunk.items).desc
    {
      p := new RtpParticipant.Raw(Endpoint(origin.host, origin.port - 1), origin, 0);
      var _ := p.UpdateFromSdesChunk(chunk);
    }

    /** A fresh SSRC from the shared generator, in 0 to 0x7ffffffe. */
    static method GenerateNewSsrc(rng: SsrcGenerator) returns (s: int)
      modifies rng`drawn
      ensures 0 <= s <= 0x7ffffffe
      ensures s == rng.stream(old(rng.drawn)) && rng.drawn == old(rng.drawn) + 1
    {
      s := rng.Next();
    }

    /**
     * Merges an SDES chunk: the SSRC is always taken from the chunk, each item
     * is applied in order, and the result says whether the SSRC differed or
     * some item wrote.
     */
    method UpdateFromSdesChunk(chunk: SdesChunk) returns (modified: bool)
      modifies this
      ensures dataAddress == old(dataAddress) && controlAddress == old(controlAddress)
      ensures ssrc == chunk.ssrc
      ensures Sdes() == MergeItems(old(Sdes()), chunk.items).desc
      ensures modified <==> old(ssrc) != chunk.ssrc || MergeItems(old(Sdes()), chunk.items).wrote
    {
      modified := false;
      if ssrc != chunk.ssrc {
        modified := true;
      }
      ssrc := chunk.ssrc;
      ghost var start := Sdes();
      for i := 0 to |chunk.items|
        invariant ssrc == chunk.ssrc
        invariant dataAddress == old(dataAddress) && controlAddress == old(controlAddress)
        invariant Sdes() == MergeItems(start, chunk.items[..i]).desc
        invariant modified <==> old(ssrc) != chunk.ssrc || MergeItems(start, chunk.items[..i]).wrote
      {
        assert chunk.items[..i + 1][..i] == chunk.items[..i];
        match chunk.items[i]
        case Cname(v) =>
          if WillCauseModification(cname, v) {
            SetCname(v);
            modified := true;
          }
        case Name(v) =>
          if WillCauseModification(name, v) {
            SetName(v);
            modified := true;
          }
        case Email(v) =>
          if WillCauseModification(email, v) {
            SetEmail(v);
            modified := true;
          }
        case Phone(v) =>
          if WillCauseModification(phone, v) {
            SetPhone(v);
            modified := true;
          }
        case Location(v) =>
          if WillCauseModification(location, v) {
            SetLocation(v);
            modified := true;
          }
        case Tool(v) =>
          // compared with location, not tool: kept as written, a likely defect
          if WillCauseModification(location, v) {
            SetTool(v);
            modified := true;
          }
        case Note(v) =>
          // compared with location, not note: kept as written, a likely defect
          if WillCauseModification(location, v) {
            SetNote(v);
            modified := true;
          }
        case Priv(prefix, v) =>
          if WillCauseModification(privPrefix, prefix) || WillCauseModification(priv, v) {
            SetPriv(prefix, v);
            modified := true;
          }
        case Unrecognized(_) =>
      }
      assert chunk.items[..|chunk.items|] == chunk.items;
    }

    method UpdateDataAddress(address: Endpoint)
      modifies this`dataAddress
      ensures dataAddress == address
    {
      dataAddress := address;
    }

    method UpdateControlAddress(address: Endpoint)
      modifies this`controlAddress
      ensures controlAddress == address
    {
      controlAddress := address;
    }

    /**
     * Regenerates the SSRC while it equals `avoid` and returns it. The source
     * loops until the generator yields another value; the requires says that
     * the stream does so at some later draw.
     */
    method ResolveSsrcConflict(avoid: int, rng: SsrcGenerator) returns (s: int)
      requires ssrc == avoid ==> exists k: nat :: k >= rng.drawn && rng.stream(k) != avoid
      modifies this`ssrc, rng`drawn
      ensures s == ssrc && ssrc != avoid
      ensures old(ssrc) != avoid ==> ssrc == old(ssrc) && rng.drawn == old(rng.drawn)
      ensures old(ssrc) == avoid ==>
        old(rng.drawn) < rng.drawn && ssrc == rng.stream(rng.drawn - 1) && 0 <= ssrc <= 0x7ffffffe
      ensures forall k: nat :: old(rng.drawn) <= k < rng.drawn - 1 ==> rng.stream(k) == avoid
    {
      ghost var bound: nat := rng.drawn;
      if ssrc == avoid {
        bound :| bound >= rng.drawn && rng.stream(bound) != avoid;
      }
      while ssrc == avoid
        invariant old(rng.drawn) <= rng.drawn
        invariant ssrc == avoid ==> rng.drawn <= bound && rng.stream(bound) != avoid
        invariant old(ssrc) != avoid ==> ssrc == old(ssrc) && rng.drawn == old(rng.drawn)
        invariant old(ssrc) == avoid && ssrc != avoid ==>
          old(rng.drawn) < rng.drawn && ssrc == rng.stream(rng.drawn - 1) && 0 <= ssrc <= 0x7ffffffe
        invariant old(ssrc) == avoid && ssrc == avoid ==> rng.drawn == old(rng.drawn) || ssrc == rng.stream(rng.drawn - 1)
        invariant forall k: nat :: old(rng.drawn) <= k < rng.drawn - 1 ==> rng.stream(k) == avoid
        decreases bound + 1 - rng.drawn
      {
        ssrc := GenerateNewSsrc(rng);
      }
      s := ssrc;
    }

    /**
     * Regenerates the SSRC while it is one of `avoid` and returns it; the
     * requires says that some later draw falls outside `avoid`.
     */
    method ResolveSsrcConflictAmong(avoid: set<int>, rng: SsrcGenerator) returns (s: int)
      requires ssrc in avoid ==> exists k: nat :: k >= rng.drawn && rng.stream(k) !in avoid
      modifies this`ssrc, rng`drawn
      ensures s == ssrc && ssrc !in avoid
      ensures old(ssrc) !in avoid ==> ssrc == old(ssrc) && rng.drawn == old(rng.drawn)
      ensures old(ssrc) in avoid ==>
        old(rng.drawn) < rng.drawn && ssrc == rng.stream(rng.drawn - 1) && 0 <= ssrc <= 0x7ffffffe
      ensures forall k: nat :: old(rng.drawn) <= k < rng.drawn - 1 ==> rng.stream(k) in avoid
    {
      ghost var bound: nat := rng.drawn;
      if ssrc in avoid {
        bound :| bound >= rng.drawn && rng.stream(bound) !in avoid;
      }
      while ssrc in avoid
        invariant old(rng.drawn) <= rng.drawn
        invariant ssrc in avoid ==> rng.drawn <= bound && rng.stream(bound) !in avoid
        invariant old(ssrc) !in avoid ==> ssrc == old(ssrc) && rng.drawn == old(rng.drawn)
        invariant old(ssrc) in avoid && ssrc !in avoid ==>
          old(rng.drawn) < rng.drawn && ssrc == rng.stream(rng.drawn - 1) && 0 <= ssrc <= 0x7ffffffe
        invariant old(ssrc) in avoid && ssrc in avoid ==> rng.drawn == old(rng.drawn) || ssrc == rng.stream(rng.drawn - 1)
        invariant forall k: nat :: old(rng.drawn) <= k < rng.drawn - 1 ==> rng.stream(k) in avoid
        decreases bound + 1 - rng.drawn
      {
        ssrc := GenerateNewSsrc(rng);
      }
      s := ssrc;
    }

    /** The low-level SSRC override: rejects an out-of-range value and then changes nothing. */
    method UpdateSsrc(s: int) returns (err: Option<ArgumentError>)
      modifies this`ssrc
      ensures err.None? <==> ValidSsrc(s)
      ensures err.Some? ==> err.value == SsrcOutOfRange
      ensures ssrc == if ValidSsrc(s) then s else old(ssrc)
    {
      if !ValidSsrc(s) {
        return Some(SsrcOutOfRange);
      }
      ssrc := s;
      return None;
    }

    method SetCname(v: Text)
      modifies this`cname
      ensures Sdes() == old(Sdes()).(cname := v)
    {
      cname := v;
    }

    method SetName(v: Text)
      modifies this`name
      ensures Sdes() == old(Sdes()).(name := v)
    {
      name := v;
    }

    method SetEmail(v: Text)
      modifies this`email
      ensures Sdes() == old(Sdes()).(email := v)
    {
      email := v;
    }

    method SetPhone(v: Text)
      modifies this`phone
      ensures Sdes() == old(Sdes()).(phone := v)
    {
      phone := v;
    }

    method SetLocation(v: Text)
      modifies this`location
      ensures Sdes() == old(Sdes()).(location := v)
    {
      location := v;
    }

    method SetTool(v: Text)
      modifies this`tool
      ensures Sdes() == old(Sdes()).(tool := v)
    {
      tool := v;
    }

    method SetNote(v: Text)
      modifies this`note
      ensures Sdes() == old(Sdes()).(note := v)
    {
      note := v;
    }

    /** Sets the PRIV prefix and value together; either may be null. */
    method SetPriv(prefix: Text, v: Text)
      modifies this`privPrefix, this`priv
      ensures Sdes() == old(Sdes()).(privPrefix := prefix, priv := v)
    {
      privPrefix := prefix;
      priv := v;
    }
  }

  /**
   * Merging the same chunk into a record twice: the second merge reports no
   * change when each item kind occurs once and every TOOL or NOTE value is
   * absent or equal to the `location` the first merge leaves.
   */
  method RemergeReportsNoChange(p: RtpParticipant, chunk: SdesChunk) returns (first: bool, second: bool)
    requires SdesProperties.DistinctTargets(chunk.items)
    requires forall i :: 0 <= i < |chunk.items| && (chunk.items[i].Tool? || chunk.items[i].Note?) ==>
      chunk.items[i].value.None? || chunk.items[i].value == MergeItems(p.Sdes(), chunk.items).desc.location
    modifies p
    ensures first <==> old(p.ssrc) != chunk.ssrc || MergeItems(old(p.Sdes()), chunk.items).wrote
    ensures !second
    ensures p.dataAddress == old(p.dataAddress) && p.controlAddress == old(p.controlAddress)
    ensures p.ssrc == chunk.ssrc && p.Sdes() == MergeItems(old(p.Sdes()), chunk.items).desc
  {
    first := p.UpdateFromSdesChunk(chunk);
    SdesProperties.MergeTwiceUnmodified(old(p.Sdes()), chunk.items);
    second := p.UpdateFromSdesChunk(chunk);
  }
}
