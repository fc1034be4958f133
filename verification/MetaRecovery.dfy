/** From bytes to state: opening the metadata store replays the decoded frames of its log over the
snapshot. The record encoding is a parameter, required only to decode what it encoded of the log at hand. */
module MetaRecovery {
  import opened Rows
  import opened MetaStore
  import opened MetaWal
  import opened Crc32

  /** An encoding that loses none of these records and keeps each below the frame limit. */
  predicate Codec(enc: Record -> Payload, dec: Payload -> Option<Record>, records: seq<Record>) {
    forall i :: 0 <= i < |records| ==> dec(enc(records[i])) == Some(records[i]) && |enc(records[i])| < U32
  }

  function Payloads(enc: Record -> Payload, records: seq<Record>): (p: seq<Payload>)
    ensures |p| == |records|
  {
    seq(|records|, i requires 0 <= i < |records| => enc(records[i]))
  }

  /** Replays a log file over a snapshot: fails on a bad magic number or an undecodable record. */
  method OpenLog(data: Bytes, base: Image, dec: Payload -> Option<Record>) returns (r: Result<Image>)
    ensures forall enc, records, n: nat ::
              Codec(enc, dec, records) && n <= |Encode(Payloads(enc, records))| && data == Encode(Payloads(enc, records))[..n] ==>
                r == Ok(Replay(records[..Fitting(Payloads(enc, records), n)], base))
  {
    hide Fitting, Encode, Frames;
    var frames := DecodeAllFrames(data);
    forall enc, records: seq<Record>, n: nat
      | Codec(enc, dec, records) && n <= |Encode(Payloads(enc, records))| && data == Encode(Payloads(enc, records))[..n]
      ensures frames == Ok(Payloads(enc, records[..Fitting(Payloads(enc, records), n)]))
    {
      var p := Payloads(enc, records);
      TruncatedReplay(p, n);
      assert p[..Fitting(p, n)] == Payloads(enc, records[..Fitting(p, n)]);
    }
    if frames.Err? {
      return Err;
    }
    r := ReplayFrames(frames.value, base, dec);
  }

  method ReplayFrames(frames: seq<Payload>, base: Image, dec: Payload -> Option<Record>) returns (r: Result<Image>)
    ensures forall enc, records ::
              Codec(enc, dec, records) && frames == Payloads(enc, records) ==> r == Ok(Replay(records, base))
  {
    hide Apply;
    var image := base;
    for k := 0 to |frames|
      invariant forall enc, records ::
                  Codec(enc, dec, records) && frames == Payloads(enc, records) ==> image == Replay(records[..k], base)
    {
      var rec := dec(frames[k]);
      if rec.None? {
        return Err;
      }
      forall enc, records: seq<Record> | Codec(enc, dec, records) && frames == Payloads(enc, records)
        ensures Apply(rec.value, image) == Replay(records[..k + 1], base)
      {
        assert frames[k] == enc(records[k]) && records[..k + 1][..k] == records[..k];
      }
      image := Apply(rec.value, image);
    }
    forall enc, records: seq<Record> | Codec(enc, dec, records) && frames == Payloads(enc, records)
      ensures image == Replay(records, base)
    {
      assert records[..|frames|] == records;
    }
    return Ok(image);
  }
}
