/** The client's collected responses as the object that its handlers update,
    and a download from the first line received to the last record written. */
module Client {
  import opened Records
  import opened Folds
  import opened Sorting
  import RF = RecordFormat

  class Responses {
    var responseDPS: seq<DP>
    var responseERR: seq<TError>

    constructor ()
      ensures Now() == RF.Store([], [])
    {
      responseDPS, responseERR := [], [];
    }

    function Now(): RF.Store
      reads this
    {
      RF.Store(responseDPS, responseERR)
    }

    /** collectDataPointv2: the handler of one Stats signal, if it has a body. */
    method CollectDataPoint(r: Option<Batch>)
      modifies this
      ensures r.None? ==> Now() == old(Now())
      ensures r.Some? ==> Now() == RF.Store(old(responseDPS) + r.value.points, old(responseERR) + r.value.errors)
    {
      if r.None? {
        return;
      }
      responseDPS := responseDPS + r.value.points;
      responseERR := responseERR + r.value.errors;
    }

    method ReceiveJSONDataPoint(cs: RF.Codecs, data: seq<RF.Byte>)
      modifies this
      ensures Now() == RF.Receive(cs, old(Now()), data)
      ensures data != [] && data[0] == 48 && cs.dp.dec(data[1..]).Some? ==>
        responseDPS == old(responseDPS) + [cs.dp.dec(data[1..]).value] && responseERR == old(responseERR)
      ensures data != [] && data[0] == 49 && cs.err.dec(data[1..]).Some? ==>
        responseERR == old(responseERR) + [cs.err.dec(data[1..]).value] && responseDPS == old(responseDPS)
      ensures data == [] || (data[0] != 48 && data[0] != 49)
                || (data[0] == 48 && cs.dp.dec(data[1..]).None?) || (data[0] == 49 && cs.err.dec(data[1..]).None?) ==>
        responseDPS == old(responseDPS) && responseERR == old(responseERR)
    {
      if RF.HasTag(data, RF.ERROR_TAG) {
        var e := cs.err.dec(data[1..]);
        if e.None? {
          return;
        }
        responseERR := responseERR + [e.value];
      } else if RF.HasTag(data, RF.POINT_TAG) {
        var d := cs.dp.dec(data[1..]);
        if d.None? {
          return;
        }
        responseDPS := responseDPS + [d.value];
      }
    }

    /** The collecting part of a download: the lines whose handlers run before the
        client goes on, in the order in which they do. */
    method ReceiveLines(cs: RF.Codecs, arrival: seq<seq<RF.Byte>>)
      requires Now() == RF.Store([], [])
      modifies this
      ensures Now() == RF.ReceiveAll(cs, arrival)
    {
      for i := 0 to |arrival|
        invariant Now() == RF.ReceiveAll(cs, arrival[..i])
      {
        assert arrival[..i + 1][..i] == arrival[..i];
        ReceiveJSONDataPoint(cs, arrival[i]);
      }
      assert arrival[..|arrival|] == arrival;
    }

    method SortByCreated()
      modifies this
      ensures multiset(responseDPS) == multiset(old(responseDPS)) && RF.PointsByCreated(responseDPS)
      ensures multiset(responseERR) == multiset(old(responseERR)) && RF.ErrorsByCreated(responseERR)
      ensures forall i, j :: 0 <= i < j < |responseDPS| ==> responseDPS[i].created <= responseDPS[j].created
      ensures forall i, j :: 0 <= i < j < |responseERR| ==> responseERR[i].created <= responseERR[j].created
    {
      var errs := new TError[|responseERR|](i requires 0 <= i < |responseERR| reads this => responseERR[i]);
      var dps := new DP[|responseDPS|](i requires 0 <= i < |responseDPS| reads this => responseDPS[i]);
      assert errs[..] == responseERR && dps[..] == responseDPS;
      SortFunc(errs, (e: TError) => e.created);
      SortFunc(dps, (d: DP) => d.created);
      responseERR, responseDPS := errs[..], dps[..];
    }

    /** Receives, without waiting for the handlers of any other lines; sorts both
        lists by time; and writes points, then errors, to a new file, stopping at
        the first write that fails. disk is absent if no file can be created. It
        succeeds if and only if there is a file and every write to it does. */
    method DownloadTest(cs: RF.Codecs, arrival: seq<seq<RF.Byte>>, disk: Option<RF.Disk>)
      returns (file: RF.File?, ok: bool)
      requires Now() == RF.Store([], [])
      modifies this
      ensures file != null ==> fresh(file)
      ensures multiset(responseDPS) == multiset(RF.ReceiveAll(cs, arrival).points) && RF.PointsByCreated(responseDPS)
      ensures multiset(responseERR) == multiset(RF.ReceiveAll(cs, arrival).errors) && RF.ErrorsByCreated(responseERR)
      ensures forall i, j :: 0 <= i < j < |responseDPS| ==> responseDPS[i].created <= responseDPS[j].created
      ensures forall i, j :: 0 <= i < j < |responseERR| ==> responseERR[i].created <= responseERR[j].created
      ensures file != null <==> disk.Some?
      ensures ok <==> disk.Some? && RF.TakesAll(disk.value, 0, RF.Chunks(cs, RF.Downloaded(responseDPS, responseERR)))
      ensures ok ==> file != null && file.content == cs.Encode(RF.Downloaded(responseDPS, responseERR))
      ensures ok ==> file.content == cs.Encode(PointRecords(responseDPS)) + cs.Encode(ErrorRecords(responseERR))
      ensures file != null && !ok ==> file.content <= cs.Encode(RF.Downloaded(responseDPS, responseERR))
    {
      ReceiveLines(cs, arrival);
      SortByCreated();
      if disk.None? {
        return null, false;
      }
      RF.EncodeConcat(cs, PointRecords(responseDPS), ErrorRecords(responseERR));
      file, ok := WriteDownload(cs, responseDPS, responseERR, disk.value);
    }
  }

  /** Points, then errors, to a new file. */
  method WriteDownload(cs: RF.Codecs, dps: seq<DP>, errs: seq<TError>, disk: RF.Disk) returns (file: RF.File, ok: bool)
    ensures fresh(file)
    ensures ok <==> RF.TakesAll(disk, 0, RF.Chunks(cs, RF.Downloaded(dps, errs)))
    ensures ok ==> file.content == cs.Encode(RF.Downloaded(dps, errs))
    ensures !ok ==> file.content <= cs.Encode(RF.Downloaded(dps, errs))
  {
    file := new RF.File(disk);
    ghost var points, errors := PointRecords(dps), ErrorRecords(errs);
    RF.EncodeConcat(cs, points, errors);
    RF.ChunksConcat(cs, points, errors);
    RF.TakesConcat(disk, 0, RF.Chunks(cs, points), RF.Chunks(cs, errors));
    assert [] + cs.Encode(points) == cs.Encode(points);
    ok := file.WriteRecords(cs, PointRecords(dps));
    if ok {
      ok := file.WriteRecords(cs, ErrorRecords(errs));
    }
  }
}
