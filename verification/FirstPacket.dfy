/** The loop that waits for a complete hello packet on a fresh Minecraft connection. */
module FirstPacket {
  import opened Basics
  import opened Datatypes
  import opened Minecraft

  /** What one socket read gives. */
  datatype SocketRead = Bytes(chunk: seq<byte>) | IoError

  datatype Outcome = Found(packet: HelloPacket, data: seq<byte>, used: nat) | ReadFailed | StillReading

  function Shift(o: Outcome, n: nat): Outcome {
    if o.Found? then o.(used := o.used + n) else o
  }

  /** The parser is run again after every read, on everything read so far. */
  function Search(buf: seq<byte>, inputs: seq<SocketRead>): Outcome
    decreases |inputs|
  {
    if inputs == [] then StillReading
    else match inputs[0]
      case IoError => ReadFailed
      case Bytes(chunk) =>
        var all := buf + chunk;
        match ParseHello(all)
        case Parsed(p) => Found(p, all, 1)
        case _ =>
          Shift(Search(all, inputs[1..]), 1)
  }

  function AsReads(chunks: seq<seq<byte>>): seq<SocketRead> {
    seq(|chunks|, i requires 0 <= i < |chunks| => Bytes(chunks[i]))
  }

  lemma {:induction false} SearchChunks(buf: seq<byte>, chunks: seq<seq<byte>>)
    requires !ParseHello(buf).Parsed?
    ensures var whole, o := ParseHello(buf + Flatten(chunks)), Search(buf, AsReads(chunks));
            && !o.ReadFailed?
            && (o.Found? <==> whole.Parsed?)
            && (o.Found? ==>
                  && whole == Parsed(o.packet)
                  && o.used <= |chunks| && o.data == buf + Flatten(chunks[..o.used])
                  && 0 < o.packet.length <= |o.data| && ParseHello(o.data[..o.packet.length]) == Parsed(o.packet))
    decreases |chunks|
  {
    hide ParseHello;
    if chunks == [] {
      assert buf + Flatten(chunks) == buf;
    } else {
      var all, rest := buf + chunks[0], Flatten(chunks[1..]);
      assert buf + Flatten(chunks) == all + rest;
      assert AsReads(chunks)[1..] == AsReads(chunks[1..]);
      if ParseHello(all).Parsed? {
        VerdictStable(all, rest);
        ExactConsumption(all);
        assert chunks[..1] == [chunks[0]] && Flatten([chunks[0]]) == chunks[0] + Flatten([chunks[0]][1..]);
      } else {
        SearchChunks(all, chunks[1..]);
        var found := Search(all, AsReads(chunks[1..]));
        if found.Found? {
          assert chunks[..found.used + 1][1..] == chunks[1..][..found.used];
          assert buf + Flatten(chunks[..found.used + 1]) == all + Flatten(chunks[1..][..found.used]);
        }
      }
    }
  }

  /**
   However the stream is cut into reads, the loop finds the packet the whole
   stream starts with, or keeps reading when there is none. Everything read
   so far is handed on, and the packet lies inside it, so slicing off the
   packet is always in range.
   */
  lemma FirstPacketAnyChunking(chunks: seq<seq<byte>>, others: seq<seq<byte>>)
    requires Flatten(chunks) == Flatten(others)
    ensures var o, other := Search([], AsReads(chunks)), Search([], AsReads(others));
            && o.Found? == other.Found? == ParseHello(Flatten(chunks)).Parsed?
            && !o.ReadFailed? && !other.ReadFailed?
            && (o.Found? ==>
                  && o.packet == other.packet == ParseHello(Flatten(chunks)).value
                  && o.used <= |chunks| && o.data == Flatten(chunks[..o.used])
                  && o.packet.length <= |o.data|)
  {
    assert !ParseHello([]).Parsed?;
    hide ParseHello, Search;
    SearchChunks([], chunks);
    SearchChunks([], others);
    assert [] + Flatten(chunks) == Flatten(chunks) && [] + Flatten(others) == Flatten(others);
  }

  /** Everything read so far. */
  function Received(inputs: seq<SocketRead>): seq<byte>
    requires forall i | 0 <= i < |inputs| :: inputs[i].Bytes?
  {
    if inputs == [] then [] else Received(inputs[..|inputs| - 1]) + inputs[|inputs| - 1].chunk
  }

  /** The first `n` reads succeed, and nothing read before the last of them holds a packet. */
  ghost predicate Reading(inputs: seq<SocketRead>, n: nat) {
    && n <= |inputs| && (forall i | 0 <= i < n :: inputs[i].Bytes?)
    && forall m | 0 <= m < n :: !ParseHello(Received(inputs[..m])).Parsed?
  }

  ghost predicate FoundAfter(inputs: seq<SocketRead>, n: nat) {
    Reading(inputs, n) && ParseHello(Received(inputs[..n])).Parsed?
  }

  ghost predicate FailsAfter(inputs: seq<SocketRead>, n: nat) {
    Reading(inputs, n) && !ParseHello(Received(inputs[..n])).Parsed? && n < |inputs| && inputs[n].IoError?
  }

  /** A loop that has stopped for one reason has not stopped for another. */
  lemma StopsOnce(inputs: seq<SocketRead>, n: nat, m: nat)
    requires FoundAfter(inputs, n) || FailsAfter(inputs, n) ||
             (n == |inputs| && Reading(inputs, n) && !ParseHello(Received(inputs[..n])).Parsed?)
    ensures FoundAfter(inputs, m) ==> FoundAfter(inputs, n) && m == n
    ensures FailsAfter(inputs, m) ==> FailsAfter(inputs, n) && m == n
  {
    hide ParseHello, Received;
  }

  /**
   The packet is found exactly if some run of reads without a failure holds one,
   after the shortest such run; a failed read ends the search exactly if no
   packet was there before it.
   */
  method FirstMinecraftPacket(inputs: seq<SocketRead>) returns (r: Outcome)
    ensures r == Search([], inputs)
    ensures r.Found? <==> exists n: nat :: FoundAfter(inputs, n)
    ensures r.Found? ==>
              && FoundAfter(inputs, r.used) && r.data == Received(inputs[..r.used])
              && ParseHello(r.data) == Parsed(r.packet)
    ensures r.ReadFailed? <==> exists n: nat :: FailsAfter(inputs, n)
  {
    hide ParseHello, Received;
    var buf: seq<byte> := [];
    NothingReceived();
    assert inputs[..0] == [];
    for i := 0 to |inputs|
      invariant Search([], inputs) == Shift(Search(buf, inputs[i..]), i)
      invariant Reading(inputs, i) && buf == Received(inputs[..i]) && !ParseHello(buf).Parsed?
    {
      match inputs[i] {
        case IoError =>
          assert FailsAfter(inputs, i);
          forall m: nat { StopsOnce(inputs, i, m); }
          return ReadFailed;
        case Bytes(chunk) =>
          ReceivedNext(inputs, i);
          buf := buf + chunk;
          var verdict := New(buf);
          if verdict.Parsed? {
            assert FoundAfter(inputs, i + 1);
            forall m: nat { StopsOnce(inputs, i + 1, m); }
            return Found(verdict.value, buf, i + 1);
          }
      }
      assert inputs[i..][1..] == inputs[i + 1..];
    }
    forall m: nat { StopsOnce(inputs, |inputs|, m); }
    return StillReading;
  }

  lemma NothingReceived()
    ensures Received([]) == [] && !ParseHello([]).Parsed?
  {
  }

  lemma ReceivedNext(inputs: seq<SocketRead>, i: nat)
    requires i < |inputs| && forall j | 0 <= j <= i :: inputs[j].Bytes?
    ensures Received(inputs[..i + 1]) == Received(inputs[..i]) + inputs[i].chunk
  {
    assert inputs[..i + 1][..i] == inputs[..i];
  }

  /** What the disconnect path keeps after the packet: the slice is always in range. */
  method AfterPacket(packet: HelloPacket, data: seq<byte>) returns (rest: seq<byte>)
    requires ParseHello(data) == Parsed(packet)
    ensures packet.length <= |data| && data == data[..packet.length] + rest
  {
    hide ParseHello;
    ExactConsumption(data);
    rest := data[packet.length..];
  }
}
