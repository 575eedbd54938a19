/** Sixteen-bit little-endian PCM (src/core/pcm_audio.cpp). */
module Pcm {

  type Sample = x: int | -0x8000 <= x < 0x8000
  type Byte = x: int | 0 <= x < 0x100

  /** The two's complement reading of a 16-bit word built from two bytes. */
  function ReadInt16Le(low: Byte, high: Byte): Sample {
    var word := low + 0x100 * high;
    if word < 0x8000 then word else word - 0x1_0000
  }

  function WriteInt16Le(value: Sample): seq<Byte> {
    var bits := if value < 0 then value + 0x1_0000 else value;
    [bits % 0x100, bits / 0x100]
  }

  function Decode(payload: seq<Byte>): (samples: seq<Sample>)
    requires |payload| % 2 == 0
    ensures |samples| == |payload| / 2
  {
    seq(|payload| / 2, i requires 0 <= i < |payload| / 2 => ReadInt16Le(payload[2 * i], payload[2 * i + 1]))
  }

  function Encode(samples: seq<Sample>): seq<Byte> {
    if samples == [] then [] else WriteInt16Le(samples[0]) + Encode(samples[1..])
  }

  /** Writing a sample and reading it back is the identity, in both directions. */
  lemma WordRoundTrip(value: Sample, low: Byte, high: Byte)
    ensures var b := WriteInt16Le(value); ReadInt16Le(b[0], b[1]) == value
    ensures WriteInt16Le(ReadInt16Le(low, high)) == [low, high]
    ensures exists wraps :: ReadInt16Le(low, high) == low + 0x100 * high - 0x1_0000 * wraps
  {
    var wraps := if high < 0x80 then 0 else 1;
    assert ReadInt16Le(low, high) == low + 0x100 * high - 0x1_0000 * wraps;
  }

  lemma {:induction false} EncodedAt(samples: seq<Sample>)
    ensures |Encode(samples)| == 2 * |samples|
    ensures forall i :: 0 <= i < |samples| ==>
      Encode(samples)[2 * i] == WriteInt16Le(samples[i])[0] && Encode(samples)[2 * i + 1] == WriteInt16Le(samples[i])[1]
  {
    if samples != [] {
      EncodedAt(samples[1..]);
      var rest := Encode(samples[1..]);
      forall i | 0 <= i < |samples|
        ensures Encode(samples)[2 * i] == WriteInt16Le(samples[i])[0]
        ensures Encode(samples)[2 * i + 1] == WriteInt16Le(samples[i])[1]
      {
        if i > 0 {
          assert samples[i] == samples[1..][i - 1];
          assert Encode(samples)[2 * i] == rest[2 * (i - 1)] && Encode(samples)[2 * i + 1] == rest[2 * (i - 1) + 1];
        }
      }
    }
  }

  lemma EncodeThenDecode(samples: seq<Sample>)
    ensures |Encode(samples)| % 2 == 0 && Decode(Encode(samples)) == samples
  {
    EncodedAt(samples);
    hide Encode;
    forall i | 0 <= i < |samples| ensures Decode(Encode(samples))[i] == samples[i] {
      WordRoundTrip(samples[i], 0, 0);
    }
  }

  lemma DecodeThenEncode(payload: seq<Byte>)
    requires |payload| % 2 == 0
    ensures Encode(Decode(payload)) == payload
  {
    var decoded := Decode(payload);
    EncodedAt(decoded);
    hide Encode;
    forall j | 0 <= j < |payload| ensures Encode(decoded)[j] == payload[j] {
      var i := j / 2;
      WordRoundTrip(0, payload[2 * i], payload[2 * i + 1]);
      hide ReadInt16Le, WriteInt16Le;
      assert decoded[i] == ReadInt16Le(payload[2 * i], payload[2 * i + 1]);
      assert WriteInt16Le(decoded[i]) == [payload[2 * i], payload[2 * i + 1]];
    }
  }

  /** A stream of samples survives the byte form, and an even payload survives being decoded and written again. */
  lemma CodecRoundTrip(samples: seq<Sample>, payload: seq<Byte>)
    requires |payload| % 2 == 0
    ensures |Encode(samples)| % 2 == 0 && Decode(Encode(samples)) == samples
    ensures Encode(Decode(payload)) == payload
  {
    EncodeThenDecode(samples);
    DecodeThenEncode(payload);
  }

  /** Clears the output and fails on an odd payload; otherwise decodes every frame. */
  method DecodeMonoPcm16Le(payload: seq<Byte>) returns (ok: bool, output: seq<Sample>)
    ensures ok <==> |payload| % 2 == 0
    ensures ok ==> output == Decode(payload) && Encode(output) == payload
    ensures !ok ==> output == []
  {
    if |payload| % 2 != 0 {
      return false, [];
    }
    ok, output := true, [];
    var frame := 0;
    while frame < |payload| / 2
      invariant frame <= |payload| / 2
      invariant output == Decode(payload)[..frame]
    {
      output := output + [ReadInt16Le(payload[2 * frame], payload[2 * frame + 1])];
      frame := frame + 1;
    }
    assert output == Decode(payload);
    CodecRoundTrip([], payload);
  }
}
