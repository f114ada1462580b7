/**
 * The lane helpers of `workflows/utils/tantalus_utils.py`: lane ids of the
 * form `<flowcell>_<lane number>`, the lane ids of a sequence dataset,
 * matching them against a requested list, the one sequencing centre and
 * instrument of a dataset, and the GSC lane id format `^.*_\d$`.
 */
module TantalusUtils {
  import opened Wrappers

  /** One entry of a sequence dataset's `sequence_lanes`. */
  datatype Lane = Lane(flowcellId: string, laneNumber: string, sequencingCentre: string, sequencingInstrument: string)

  datatype LaneError =
    | InvalidGscLane(laneId: string)  // 'Invalid GSC lane ...'
    | NotExactlyOne(count: nat)       // '<count> sequencing centers/instruments found for dataset ...'

  /* ---------------------------------------------------------------------- */
  /* Lane ids                                                                 */
  /* ---------------------------------------------------------------------- */

  /** `get_flowcell_lane`: the flowcell id, followed by `_` and the lane number when there is one. */
  function FlowcellLane(lane: Lane): (id: string)
    ensures lane.laneNumber == "" <==> id == lane.flowcellId
    ensures |lane.flowcellId| <= |id| && id[..|lane.flowcellId|] == lane.flowcellId
    ensures lane.laneNumber != "" ==>
      id[|lane.flowcellId|] == '_' && id[|lane.flowcellId| + 1..] == lane.laneNumber
  {
    if lane.laneNumber == "" then lane.flowcellId else lane.flowcellId + "_" + lane.laneNumber
  }

  /** The set of lane ids of `lanes`, built up lane by lane. */
  function LaneSet(lanes: seq<Lane>): (ids: set<string>)
    ensures |ids| <= |lanes|
  {
    if lanes == [] then {} else LaneSet(lanes[..|lanes| - 1]) + {FlowcellLane(lanes[|lanes| - 1])}
  }

  /** Every lane's id is in the set. */
  lemma {:induction false} LaneSetHasEveryLane(lanes: seq<Lane>)
    ensures forall k :: 0 <= k < |lanes| ==> FlowcellLane(lanes[k]) in LaneSet(lanes)
  {
    if lanes != [] {
      var n := |lanes| - 1;
      LaneSetHasEveryLane(lanes[..n]);
      forall k | 0 <= k < n
        ensures FlowcellLane(lanes[k]) in LaneSet(lanes)
      {
        assert lanes[k] == lanes[..n][k];
      }
    }
  }

  /** Every id in the set is some lane's id. */
  lemma {:induction false} LaneSetOnlyLaneIds(lanes: seq<Lane>)
    ensures forall id :: id in LaneSet(lanes) ==> exists k :: 0 <= k < |lanes| && FlowcellLane(lanes[k]) == id
  {
    if lanes != [] {
      var n := |lanes| - 1;
      var init := lanes[..n];
      LaneSetOnlyLaneIds(init);
      assert LaneSet(lanes) == LaneSet(init) + {FlowcellLane(lanes[n])};
      forall id | id in LaneSet(lanes)
        ensures exists k :: 0 <= k < |lanes| && FlowcellLane(lanes[k]) == id
      {
        if id != FlowcellLane(lanes[n]) {
          var k :| 0 <= k < |init| && FlowcellLane(init[k]) == id;
          assert lanes[k] == init[k];
        }
      }
    }
  }

  /** `get_lanes_from_dataset`: add the lane id of every lane of the dataset to a set. */
  method LanesFromDataset(sequenceLanes: seq<Lane>) returns (lanes: set<string>)
    ensures lanes == LaneSet(sequenceLanes)
  {
    lanes := {};
    var i := 0;
    while i < |sequenceLanes|
      invariant 0 <= i <= |sequenceLanes|
      invariant lanes == LaneSet(sequenceLanes[..i])
    {
      lanes := lanes + {FlowcellLane(sequenceLanes[i])};
      assert sequenceLanes[..i + 1][..i] == sequenceLanes[..i];
      i := i + 1;
    }
    assert sequenceLanes[..i] == sequenceLanes;
  }

  /** Whether a dataset's lanes are the requested ones: any lanes when none are requested, else the same set. */
  predicate LanesMatch(sequenceLanes: seq<Lane>, laneIds: Option<seq<string>>) {
    laneIds.None? || (set id | id in laneIds.value) == LaneSet(sequenceLanes)
  }

  /** `sequence_dataset_match_lanes`. */
  method SequenceDatasetMatchLanes(sequenceLanes: seq<Lane>, laneIds: Option<seq<string>>) returns (matches: bool)
    ensures matches == LanesMatch(sequenceLanes, laneIds)
    ensures laneIds.Some? ==> (matches <==>
      && (forall id :: id in laneIds.value ==> exists k :: 0 <= k < |sequenceLanes| && FlowcellLane(sequenceLanes[k]) == id)
      && (forall k :: 0 <= k < |sequenceLanes| ==> FlowcellLane(sequenceLanes[k]) in laneIds.value))
  {
    if laneIds.None? {
      return true;
    }
    var datasetLanes := LanesFromDataset(sequenceLanes);
    LaneSetHasEveryLane(sequenceLanes);
    LaneSetOnlyLaneIds(sequenceLanes);
    var requested := set id | id in laneIds.value;
    matches := requested == datasetLanes;
    if matches {
      forall k | 0 <= k < |sequenceLanes|
        ensures FlowcellLane(sequenceLanes[k]) in laneIds.value
      {
        assert FlowcellLane(sequenceLanes[k]) in requested;
      }
      forall id | id in laneIds.value
        ensures exists k :: 0 <= k < |sequenceLanes| && FlowcellLane(sequenceLanes[k]) == id
      {
        assert id in datasetLanes;
      }
    }
  }

  /** Only which lane ids are requested matters, not their order or repetitions. */
  lemma LanesMatchIgnoresOrder(sequenceLanes: seq<Lane>, a: seq<string>, b: seq<string>)
    requires forall id :: id in a <==> id in b
    ensures LanesMatch(sequenceLanes, Some(a)) == LanesMatch(sequenceLanes, Some(b))
  {
    assert (set id | id in a) == (set id | id in b);
  }

  /* ---------------------------------------------------------------------- */
  /* The one sequencing centre and instrument of a dataset                    */
  /* ---------------------------------------------------------------------- */

  /** The only element of `values`, or the number of elements when there is not exactly one. */
  function SoleValue(values: set<string>): (r: Result<string, LaneError>)
    ensures r.Ok? <==> |values| == 1
    ensures r.Ok? ==> values == {r.value}
    ensures r.Err? ==> r.error == NotExactlyOne(|values|)
  {
    if |values| != 1 then Err(NotExactlyOne(|values|))
    else
      var v :| v in values;
      assert values == {v} by {
        assert |values - {v}| == 0;
      }
      Ok(v)
  }

  /** `get_sequencing_centre_from_dataset`. */
  function SequencingCentre(sequenceLanes: seq<Lane>): (r: Result<string, LaneError>)
    ensures r.Ok? ==> exists lane :: lane in sequenceLanes && lane.sequencingCentre == r.value
    ensures r.Err? ==> r.error == NotExactlyOne(|set lane | lane in sequenceLanes :: lane.sequencingCentre|)
  {
    SoleValue(set lane | lane in sequenceLanes :: lane.sequencingCentre)
  }

  /** `get_sequencing_instrument_from_dataset`. */
  function SequencingInstrument(sequenceLanes: seq<Lane>): (r: Result<string, LaneError>)
    ensures r.Ok? ==> exists lane :: lane in sequenceLanes && lane.sequencingInstrument == r.value
    ensures r.Err? ==> r.error == NotExactlyOne(|set lane | lane in sequenceLanes :: lane.sequencingInstrument|)
  {
    SoleValue(set lane | lane in sequenceLanes :: lane.sequencingInstrument)
  }

  /**
   * The centre is found exactly when the dataset has lanes and they all
   * name the same centre, and then it is that centre.
   */
  lemma SequencingCentreShared(sequenceLanes: seq<Lane>)
    ensures SequencingCentre(sequenceLanes).Ok? <==>
      sequenceLanes != [] && forall lane :: lane in sequenceLanes ==> lane.sequencingCentre == sequenceLanes[0].sequencingCentre
    ensures SequencingCentre(sequenceLanes).Ok? ==>
      forall lane :: lane in sequenceLanes ==> lane.sequencingCentre == SequencingCentre(sequenceLanes).value
  {
    var centres := set lane | lane in sequenceLanes :: lane.sequencingCentre;
    if sequenceLanes != [] {
      assert sequenceLanes[0].sequencingCentre in centres;
      if forall lane :: lane in sequenceLanes ==> lane.sequencingCentre == sequenceLanes[0].sequencingCentre {
        assert centres == {sequenceLanes[0].sequencingCentre};
      }
    } else {
      assert centres == {};
    }
    if SequencingCentre(sequenceLanes).Ok? {
      var v := SequencingCentre(sequenceLanes).value;
      forall lane | lane in sequenceLanes
        ensures lane.sequencingCentre == v
      {
        assert lane.sequencingCentre in centres;
      }
    }
  }

  /** The same rule for the sequencing instrument. */
  lemma SequencingInstrumentShared(sequenceLanes: seq<Lane>)
    ensures SequencingInstrument(sequenceLanes).Ok? <==>
      sequenceLanes != [] && forall lane :: lane in sequenceLanes ==> lane.sequencingInstrument == sequenceLanes[0].sequencingInstrument
    ensures SequencingInstrument(sequenceLanes).Ok? ==>
      forall lane :: lane in sequenceLanes ==> lane.sequencingInstrument == SequencingInstrument(sequenceLanes).value
  {
    var instruments := set lane | lane in sequenceLanes :: lane.sequencingInstrument;
    if sequenceLanes != [] {
      assert sequenceLanes[0].sequencingInstrument in instruments;
      if forall lane :: lane in sequenceLanes ==> lane.sequencingInstrument == sequenceLanes[0].sequencingInstrument {
        assert instruments == {sequenceLanes[0].sequencingInstrument};
      }
    } else {
      assert instruments == {};
    }
    if SequencingInstrument(sequenceLanes).Ok? {
      var v := SequencingInstrument(sequenceLanes).value;
      forall lane | lane in sequenceLanes
        ensures lane.sequencingInstrument == v
      {
        assert lane.sequencingInstrument in instruments;
      }
    }
  }

  /* ---------------------------------------------------------------------- */
  /* The GSC lane id format                                                   */
  /* ---------------------------------------------------------------------- */

  /** `\d`, read as the ASCII digits. */
  predicate IsDigit(c: char) {
    '0' <= c <= '9'
  }

  /**
   * What `re.match` of `^.*_\d$` accepts, stated directly: any text without a
   * line break (`.` stops at one), `_`, one digit, and then the end of the
   * string or a single final line break (`$` matches before one).
   */
  ghost predicate LaneIdShape(s: string) {
    exists u: string, d: char ::
      && '\n' !in u && IsDigit(d)
      && (s == u + ['_', d] || s == u + ['_', d, '\n'])
  }

  /** The test of `LANE_ID_RE`: drop one final line break, then look at the last two characters and what precedes them. */
  function MatchesLaneIdRe(s: string): (b: bool)
    ensures b ==> |s| >= 2
    ensures b ==> IsDigit(s[|s| - 1]) || (s[|s| - 1] == '\n' && IsDigit(s[|s| - 2]))
  {
    var t := if |s| > 0 && s[|s| - 1] == '\n' then s[..|s| - 1] else s;
    |t| >= 2 && t[|t| - 2] == '_' && IsDigit(t[|t| - 1]) && '\n' !in t[..|t| - 2]
  }

  /** The test accepts exactly the strings of the regular expression's shape. */
  lemma MatchesLaneIdReIsShape(s: string)
    ensures MatchesLaneIdRe(s) <==> LaneIdShape(s)
  {
    if MatchesLaneIdRe(s) {
      var t := if |s| > 0 && s[|s| - 1] == '\n' then s[..|s| - 1] else s;
      var u, d := t[..|t| - 2], t[|t| - 1];
      assert t == u + ['_', d];
      if |s| > 0 && s[|s| - 1] == '\n' {
        assert s == t + ['\n'];
      }
    }
    if LaneIdShape(s) {
      var u: string, d: char :| '\n' !in u && IsDigit(d) && (s == u + ['_', d] || s == u + ['_', d, '\n']);
      var t := if |s| > 0 && s[|s| - 1] == '\n' then s[..|s| - 1] else s;
      assert t == u + ['_', d];
      assert t[..|t| - 2] == u;
    }
  }

  /** `check_gsc_lane_id`: fails unless the lane id has the GSC format. */
  function CheckGscLaneId(laneId: string): (r: Result<(), LaneError>)
    ensures r.Err? ==> r.error == InvalidGscLane(laneId)
  {
    if MatchesLaneIdRe(laneId) then Ok(()) else Err(InvalidGscLane(laneId))
  }

  /** The check accepts exactly the lane ids of the regular expression's shape. */
  lemma CheckGscLaneIdAccepts(laneId: string)
    ensures CheckGscLaneId(laneId).Ok? <==> LaneIdShape(laneId)
  {
    MatchesLaneIdReIsShape(laneId);
  }

  /**
   * A lane id built from a flowcell id without line breaks and a one-digit
   * lane number has the GSC format, as the GSC check of a dataset's lane
   * expects of `get_flowcell_lane`.
   */
  lemma FlowcellLaneIsGscLaneId(lane: Lane)
    requires '\n' !in lane.flowcellId
    requires |lane.laneNumber| == 1 && IsDigit(lane.laneNumber[0])
    ensures CheckGscLaneId(FlowcellLane(lane)).Ok?
  {
    var s := FlowcellLane(lane);
    assert s == lane.flowcellId + ['_', lane.laneNumber[0]];
    CheckGscLaneIdAccepts(s);
  }
}
