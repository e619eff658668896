/**
 * Reaping bookkeeping of reaper.py: how a DICOM reaper tracks the series of
 * an exam on the scanner, decides when a series has stopped growing, pulls
 * and uploads it, and gives up on a series whose pulls keep coming back
 * incomplete; and how a file's patient data is blanked before upload.
 *
 * The scanner queries, the move of a series (which reports how many images
 * arrived) and the upload (which reports success) are inputs to each step.
 */
module Reaper {

  /** A series is abandoned once more than this many pulls came back incomplete. */
  const MaxFailures: nat := 9

  /** The bookkeeping fields of a tracked series. */
  datatype SeriesState = SeriesState(imageCount: int, needsReaping: bool, failCount: nat)

  /** A series seen for the first time: it needs reaping and has no failures. */
  function Discovered(imageCount: int): (s: SeriesState)
  {
    SeriesState(imageCount, true, 0)
  }

  /**
   * What one reap of a series observes: the image count the scanner now
   * reports, how many images a pull delivered, and whether the upload
   * succeeded. The last two matter only when a pull is attempted.
   */
  datatype Observation = Observation(newImageCount: int, moveCount: int, uploadOk: bool)

  /** A pull is attempted: the count has stopped changing, is non-zero, and the series needs reaping. */
  predicate PullAttempted(s: SeriesState, o: Observation)
  {
    o.newImageCount == s.imageCount && s.needsReaping && s.imageCount != 0
  }

  /**
   * One call of `Series.reap`: the new state and whether the series was
   * reaped. A changed count restarts monitoring; an unchanged zero count is
   * ignored; an unchanged count otherwise triggers a pull, which either
   * delivers every image (then the upload decides) or counts as a failure.
   */
  function SeriesStep(s: SeriesState, o: Observation): (r: (SeriesState, bool))
    ensures r.0.imageCount == o.newImageCount
    ensures o.newImageCount != s.imageCount ==> r == (Discovered(o.newImageCount), false)
    ensures o.newImageCount == s.imageCount && s.needsReaping && s.imageCount == 0 ==>
      r == (s.(needsReaping := false), false)
    ensures o.newImageCount == s.imageCount && !s.needsReaping ==> r == (s, false)
    ensures r.1 <==> PullAttempted(s, o) && o.moveCount == s.imageCount && o.uploadOk
    ensures r.1 ==> !r.0.needsReaping && r.0.failCount == s.failCount
    ensures PullAttempted(s, o) && o.moveCount != s.imageCount ==>
      r.0.failCount == s.failCount + 1 && (r.0.needsReaping <==> s.failCount + 1 <= MaxFailures)
    ensures PullAttempted(s, o) && o.moveCount == s.imageCount && !o.uploadOk ==> r == (s, false)
  {
    if o.newImageCount != s.imageCount then
      (SeriesState(o.newImageCount, true, 0), false)
    else if s.needsReaping && s.imageCount == 0 then
      (s.(needsReaping := false), false)
    else if s.needsReaping then
      if o.moveCount == s.imageCount then
        if o.uploadOk then (s.(needsReaping := false), true) else (s, false)
      else
        var fails := s.failCount + 1;
        (s.(failCount := fails, needsReaping := fails <= MaxFailures), false)
    else
      (s, false)
  }

  /** The state after a series of reaps. */
  function Run(s: SeriesState, obs: seq<Observation>): (final: SeriesState)
    decreases |obs|
  {
    if obs == [] then s else Run(SeriesStep(s, obs[0]).0, obs[1..])
  }

  /** Every observation reports an unchanged image count `n` and an incomplete pull. */
  predicate AllIncomplete(obs: seq<Observation>, n: int)
  {
    forall i :: 0 <= i < |obs| ==> obs[i].newImageCount == n && obs[i].moveCount != n
  }

  /**
   * Reaps that keep seeing the same count and incomplete pulls: the series
   * still needs reaping exactly while its failures, counted from `s`,
   * stay at most nine.
   */
  lemma {:induction false} IncompletePulls(s: SeriesState, obs: seq<Observation>)
    requires obs != [] && AllIncomplete(obs, s.imageCount)
    ensures Run(s, obs).imageCount == s.imageCount
    decreases |obs|
    ensures Run(s, obs).needsReaping <==>
      s.needsReaping && s.imageCount != 0 && s.failCount + |obs| <= MaxFailures
  {
    var next := SeriesStep(s, obs[0]).0;
    if |obs| == 1 {
      assert obs[1..] == [];
    } else {
      assert AllIncomplete(obs[1..], next.imageCount) by {
        forall i | 0 <= i < |obs[1..]| ensures obs[1..][i] == obs[i + 1] { }
      }
      IncompletePulls(next, obs[1..]);
    }
  }

  /** Ten incomplete pulls of an unchanged series always end its reaping. */
  lemma AbandonedAfterTenIncompletePulls(s: SeriesState, obs: seq<Observation>)
    requires |obs| >= MaxFailures + 1 && AllIncomplete(obs, s.imageCount)
    ensures !Run(s, obs).needsReaping
  {
    IncompletePulls(s, obs);
  }

  /** A series that no longer needs reaping is left alone while its count does not change. */
  lemma {:induction false} SettledSeriesStays(s: SeriesState, obs: seq<Observation>)
    requires !s.needsReaping
    requires forall i :: 0 <= i < |obs| ==> obs[i].newImageCount == s.imageCount
    ensures Run(s, obs) == s
  {
    if obs != [] {
      assert forall i :: 0 <= i < |obs[1..]| ==> obs[1..][i] == obs[i + 1];
      SettledSeriesStays(s, obs[1..]);
    }
  }

  /** A series of an exam, with the bookkeeping `Series.reap` updates in place. */
  class Series {
    const uid: string
    var imageCount: int
    var needsReaping: bool
    var failCount: nat

    /** A series found in a scanner listing with `imageCount` images. */
    constructor (uid: string, imageCount: int)
      ensures this.uid == uid && State() == Discovered(imageCount)
    {
      this.uid := uid;
      this.imageCount := imageCount;
      needsReaping := true;
      failCount := 0;
    }

    function State(): (s: SeriesState)
      reads this
    {
      SeriesState(imageCount, needsReaping, failCount)
    }

    /**
     * Reap the series given the count the scanner now reports. `moveCount`
     * is what the pull delivers and `uploadOk` what the upload reports when
     * a pull is attempted. True only if the series was pulled and uploaded.
     */
    method Reap(newImageCount: int, moveCount: int, uploadOk: bool) returns (success: bool)
      modifies this
      ensures (State(), success) == SeriesStep(old(State()), Observation(newImageCount, moveCount, uploadOk))
    {
      success := false;
      if newImageCount != imageCount {
        imageCount := newImageCount;
        needsReaping := true;
        failCount := 0;
      } else if needsReaping && imageCount == 0 {
        needsReaping := false;
      } else if needsReaping {
        if moveCount == imageCount {
          if uploadOk {
            success := true;
            needsReaping := false;
          }
        } else {
          failCount := failCount + 1;
          if failCount > MaxFailures {
            needsReaping := false;
          }
        }
      }
    }
  }

  /** One entry of the scanner's series listing for an exam. */
  datatype SeriesInfo = SeriesInfo(uid: string, imageCount: int)

  /**
   * The listing keyed by series uid; when a uid is listed twice, its last
   * entry wins, as in a dictionary built from the listing.
   */
  function ListingMap(listing: seq<SeriesInfo>): (m: map<string, int>)
    ensures forall i :: 0 <= i < |listing| ==> listing[i].uid in m
    ensures forall uid :: uid in m ==>
      exists i :: 0 <= i < |listing| && listing[i].uid == uid && listing[i].imageCount == m[uid]
    decreases |listing|
  {
    if listing == [] then map[]
    else
      var last := listing[|listing| - 1];
      var front := ListingMap(listing[..|listing| - 1]);
      assert forall i :: 0 <= i < |listing| - 1 ==> listing[..|listing| - 1][i] == listing[i];
      front[last.uid := last.imageCount]
  }

  /** The count recorded for a uid is that of its last entry in the listing. */
  lemma {:induction false} ListingLastEntryWins(listing: seq<SeriesInfo>, i: nat)
    requires i < |listing|
    requires forall j :: i < j < |listing| ==> listing[j].uid != listing[i].uid
    ensures ListingMap(listing)[listing[i].uid] == listing[i].imageCount
    decreases |listing|
  {
    if i < |listing| - 1 {
      var front := listing[..|listing| - 1];
      assert front[i] == listing[i];
      assert forall j :: i < j < |front| ==> front[j] == listing[j];
      ListingLastEntryWins(front, i);
    }
  }

  /**
   * The tracked series left after dropping those the scanner no longer
   * lists; an empty listing drops nothing.
   */
  function Kept(tracked: map<string, SeriesState>, listed: map<string, int>): (r: map<string, SeriesState>)
    ensures listed != map[] ==> r.Keys == tracked.Keys * listed.Keys
    ensures listed == map[] ==> r == tracked
    ensures forall uid :: uid in r ==> r[uid] == tracked[uid]
  {
    if listed == map[] then tracked
    else map uid | uid in tracked && uid in listed :: tracked[uid]
  }

  /** The state of a listed series after `Exam.reap`: reaped if it was tracked, newly tracked otherwise. */
  function Reaped(
    tracked: map<string, SeriesState>, listed: map<string, int>, uid: string,
    pulled: string -> int, uploaded: string -> bool): (s: SeriesState)
    requires uid in listed
  {
    if uid in tracked then SeriesStep(tracked[uid], Observation(listed[uid], pulled(uid), uploaded(uid))).0
    else Discovered(listed[uid])
  }

  /**
   * What `Exam.reap` leaves tracked, given the tracked series, the listing,
   * whether the reaper is alive, and what each pull and upload reports.
   */
  function ExamAfter(
    tracked: map<string, SeriesState>, listed: map<string, int>, alive: bool,
    pulled: string -> int, uploaded: string -> bool): (after: map<string, SeriesState>)
  {
    var kept := Kept(tracked, listed);
    if !alive then kept else ReapAll(kept, listed, pulled, uploaded)
  }

  /** The kept series after every listed one has been reaped or newly tracked. */
  function ReapAll(
    kept: map<string, SeriesState>, listed: map<string, int>,
    pulled: string -> int, uploaded: string -> bool): (after: map<string, SeriesState>)
  {
    map uid | uid in kept.Keys + listed.Keys ::
      if uid in listed then Reaped(kept, listed, uid, pulled, uploaded) else kept[uid]
  }

  /** A map that agrees with `ReapAll` on its keys and at every key is `ReapAll`. */
  lemma ReapAllExtensional(
    after: map<string, SeriesState>, kept: map<string, SeriesState>, listed: map<string, int>,
    pulled: string -> int, uploaded: string -> bool)
    requires after.Keys == kept.Keys + listed.Keys
    requires forall uid :: uid in kept && uid !in listed ==> after[uid] == kept[uid]
    requires forall uid :: uid in listed ==> after[uid] == Reaped(kept, listed, uid, pulled, uploaded)
    ensures after == ReapAll(kept, listed, pulled, uploaded)
  {
  }

  /** Whether reaping the tracked series `uid` against its listed count succeeds. */
  predicate ReapSucceeds(
    tracked: map<string, SeriesState>, listed: map<string, int>, uid: string,
    pulled: string -> int, uploaded: string -> bool)
    requires uid in listed && uid in tracked
  {
    SeriesStep(tracked[uid], Observation(listed[uid], pulled(uid), uploaded(uid))).1
  }

  /** What `Exam.reap` returns: every reap of an already tracked, listed series succeeded. */
  predicate ExamSucceeded(
    tracked: map<string, SeriesState>, listed: map<string, int>, alive: bool,
    pulled: string -> int, uploaded: string -> bool)
  {
    var kept := Kept(tracked, listed);
    !alive || forall uid :: uid in listed && uid in kept ==>
      ReapSucceeds(kept, listed, uid, pulled, uploaded)
  }

  predicate AnyNeedsReaping(tracked: map<string, SeriesState>)
  {
    exists uid :: uid in tracked && tracked[uid].needsReaping
  }

  /**
   * With a non-empty listing no series outside it stays tracked, and a live
   * reaper tracks exactly the listed series; an empty listing changes nothing.
   */
  lemma ExamTracksListing(
    tracked: map<string, SeriesState>, listed: map<string, int>, alive: bool,
    pulled: string -> int, uploaded: string -> bool)
    ensures listed != map[] ==> ExamAfter(tracked, listed, alive, pulled, uploaded).Keys <= listed.Keys
    ensures listed != map[] && alive ==> ExamAfter(tracked, listed, alive, pulled, uploaded).Keys == listed.Keys
    ensures listed == map[] ==> ExamAfter(tracked, listed, alive, pulled, uploaded) == tracked
    ensures listed == map[] ==> ExamSucceeded(tracked, listed, alive, pulled, uploaded)
  {
    var after := ExamAfter(tracked, listed, alive, pulled, uploaded);
    if listed == map[] && alive {
      assert after.Keys == tracked.Keys;
    }
  }

  /**
   * A newly listed series is tracked but not yet pulled, so the exam still
   * needs reaping: an exam must be reaped at least twice.
   */
  lemma NewSeriesWaitForNextReap(
    tracked: map<string, SeriesState>, listed: map<string, int>,
    pulled: string -> int, uploaded: string -> bool, uid: string)
    requires uid in listed && uid !in tracked
    ensures uid in ExamAfter(tracked, listed, true, pulled, uploaded)
    ensures ExamAfter(tracked, listed, true, pulled, uploaded)[uid] == Discovered(listed[uid])
    ensures AnyNeedsReaping(ExamAfter(tracked, listed, true, pulled, uploaded))
  {
    var after := ExamAfter(tracked, listed, true, pulled, uploaded);
    assert uid !in Kept(tracked, listed);
    assert after[uid].needsReaping;
  }

  /**
   * A listed series that is tracked, unchanged and already settled makes the
   * exam's reap report failure, because a series reap that pulls nothing
   * reports false.
   */
  lemma SettledSeriesFailsExam(
    tracked: map<string, SeriesState>, listed: map<string, int>, alive: bool,
    pulled: string -> int, uploaded: string -> bool, uid: string)
    requires alive && uid in listed && uid in tracked
    requires listed[uid] == tracked[uid].imageCount && !tracked[uid].needsReaping
    ensures !ExamSucceeded(tracked, listed, alive, pulled, uploaded)
  {
    assert uid in Kept(tracked, listed);
  }

  /** An exam on the scanner and the series the reaper tracks for it. */
  class Exam {
    const uid: string
    var seriesDict: map<string, SeriesState>

    /** An exam found in a scanner listing: no series are tracked yet. */
    constructor (uid: string)
      ensures this.uid == uid && seriesDict == map[]
    {
      this.uid := uid;
      seriesDict := map[];
    }

    /** True iff some tracked series still needs reaping. */
    function NeedsReaping(): (r: bool)
      reads this
      ensures r <==> exists s :: s in seriesDict.Values && s.needsReaping
    {
      var r := AnyNeedsReaping(seriesDict);
      assert r ==> exists s :: s in seriesDict.Values && s.needsReaping by {
        if r {
          var uid :| uid in seriesDict && seriesDict[uid].needsReaping;
          assert seriesDict[uid] in seriesDict.Values;
        }
      }
      r
    }

    /**
     * Reconcile the tracked series with the scanner's `listing`: with a
     * non-empty listing, drop tracked series it no longer holds; then reap
     * every listed series already tracked and start tracking the others,
     * until the reaper stops being `alive`. True iff every reap succeeded.
     * `pulled` and `uploaded` give, per series uid, what a pull delivers and
     * what an upload reports.
     */
    method Reap(listing: seq<SeriesInfo>, alive: bool, pulled: string -> int, uploaded: string -> bool)
      returns (success: bool)
      modifies this
      ensures seriesDict == ExamAfter(old(seriesDict), ListingMap(listing), alive, pulled, uploaded)
      ensures success == ExamSucceeded(old(seriesDict), ListingMap(listing), alive, pulled, uploaded)
      ensures (alive && exists uid :: uid in ListingMap(listing) && uid !in old(seriesDict)) ==> NeedsReaping()
    {
      var newSeries := ListingMap(listing);
      if newSeries != map[] {
        seriesDict := DropUnlisted(seriesDict, newSeries);
      }
      assert seriesDict == Kept(old(seriesDict), newSeries);
      seriesDict, success := ReapListed(seriesDict, newSeries, alive, pulled, uploaded);
      if alive {
        NewTrackedNeedReaping(old(seriesDict), newSeries, pulled, uploaded);
      }
    }
  }

  /** `NewSeriesWaitForNextReap` for any new uid of the listing. */
  lemma NewTrackedNeedReaping(
    tracked: map<string, SeriesState>, listed: map<string, int>,
    pulled: string -> int, uploaded: string -> bool)
    ensures (exists uid :: uid in listed && uid !in tracked) ==>
      AnyNeedsReaping(ExamAfter(tracked, listed, true, pulled, uploaded))
  {
    if uid :| uid in listed && uid !in tracked {
      NewSeriesWaitForNextReap(tracked, listed, pulled, uploaded, uid);
    }
  }

  /** The first loop of `Exam.reap`: delete every tracked series the listing does not hold. */
  method DropUnlisted(tracked: map<string, SeriesState>, listed: map<string, int>)
    returns (kept: map<string, SeriesState>)
    requires listed != map[]
    ensures kept == Kept(tracked, listed)
  {
    kept := tracked;
    var keys := tracked.Keys;
    while keys != {}
      invariant keys <= tracked.Keys
      invariant kept.Keys == tracked.Keys * (keys + listed.Keys)
      invariant forall uid :: uid in kept ==> kept[uid] == tracked[uid]
      decreases keys
    {
      var uid :| uid in keys;
      if uid !in listed {
        kept := kept - {uid};
      }
      keys := keys - {uid};
    }
  }

  /**
   * The second loop of `Exam.reap`: reap each listed series already tracked
   * and start tracking the others, stopping at once if the reaper is not
   * alive; `success` is the conjunction of the reaps' results.
   */
  method ReapListed(
    kept: map<string, SeriesState>, listed: map<string, int>, alive: bool,
    pulled: string -> int, uploaded: string -> bool)
    returns (after: map<string, SeriesState>, success: bool)
    requires listed != map[] ==> kept.Keys <= listed.Keys
    ensures after == (if !alive then kept else ReapAll(kept, listed, pulled, uploaded))
    ensures success == (!alive || forall uid :: uid in listed && uid in kept ==>
      ReapSucceeds(kept, listed, uid, pulled, uploaded))
  {
    after, success := kept, true;
    var pending := listed.Keys;
    while pending != {}
      invariant pending <= listed.Keys
      invariant !alive ==> pending == listed.Keys && after == kept
      invariant after.Keys == kept.Keys + (listed.Keys - pending)
      invariant forall uid :: uid in kept && (uid in pending || uid !in listed) ==> after[uid] == kept[uid]
      invariant forall uid :: uid in listed && uid !in pending ==>
        after[uid] == Reaped(kept, listed, uid, pulled, uploaded)
      invariant success <==> forall uid :: uid in listed && uid !in pending && uid in kept ==>
        ReapSucceeds(kept, listed, uid, pulled, uploaded)
      decreases pending
    {
      if !alive {
        break;
      }
      var uid :| uid in pending;
      var ok;
      after, ok := ReapOne(kept, listed, uid, after, pulled, uploaded);
      success := success && ok;
      pending := pending - {uid};
    }
    if alive {
      ReapAllExtensional(after, kept, listed, pulled, uploaded);
    }
  }

  /**
   * One pass of the second loop of `Exam.reap` for the listed `uid`: reap it
   * if it is tracked, otherwise start tracking it; `ok` is the reap's result,
   * true for a series that was not tracked.
   */
  method ReapOne(
    kept: map<string, SeriesState>, listed: map<string, int>, uid: string,
    tracked: map<string, SeriesState>, pulled: string -> int, uploaded: string -> bool)
    returns (after: map<string, SeriesState>, ok: bool)
    requires uid in listed
    requires uid in tracked <==> uid in kept
    requires uid in tracked ==> tracked[uid] == kept[uid]
    ensures after == tracked[uid := Reaped(kept, listed, uid, pulled, uploaded)]
    ensures ok == (uid in kept ==> ReapSucceeds(kept, listed, uid, pulled, uploaded))
  {
    if uid in tracked {
      var step := SeriesStep(tracked[uid], Observation(listed[uid], pulled(uid), uploaded(uid)));
      after := tracked[uid := step.0];
      ok := step.1;
    } else {
      after := tracked[uid := Discovered(listed[uid])];
      ok := true;
    }
  }

  /**
   * The birth date kept by anonymization: its first six characters (year
   * and month of a DICOM date) followed by day "15"; an empty date stays empty.
   */
  function RedactedBirthDate(birthDate: string): (r: string)
    ensures birthDate == "" <==> r == ""
    ensures |birthDate| >= 6 ==> r == birthDate[..6] + "15"
    ensures 0 < |birthDate| < 6 ==> r == birthDate + "15"
  {
    if birthDate == "" then ""
    else if |birthDate| >= 6 then birthDate[..6] + "15"
    else birthDate + "15"
  }

  /** An eight-digit DICOM date YYYYMMDD. */
  predicate IsDicomDate(d: string)
  {
    |d| == 8 && forall i :: 0 <= i < 8 ==> '0' <= d[i] <= '9'
  }

  /**
   * A well-formed birth date stays a well-formed date with the same year and
   * month, and redacting it again changes nothing.
   */
  lemma RedactionKeepsYearAndMonth(birthDate: string)
    requires IsDicomDate(birthDate)
    ensures IsDicomDate(RedactedBirthDate(birthDate))
    ensures RedactedBirthDate(birthDate)[..6] == birthDate[..6]
    ensures RedactedBirthDate(RedactedBirthDate(birthDate)) == RedactedBirthDate(birthDate)
  {
    var r := RedactedBirthDate(birthDate);
    assert r[6] == '1' && r[7] == '5';
    assert r[..6] == birthDate[..6];
  }

  /** The patient attributes of a DICOM file that anonymization overwrites, and the rest. */
  class DicomDataset {
    var patientName: string
    var patientBirthDate: string
    var otherTags: map<string, string>

    constructor (patientName: string, patientBirthDate: string, otherTags: map<string, string>)
      ensures this.patientName == patientName && this.patientBirthDate == patientBirthDate
      ensures this.otherTags == otherTags
    {
      this.patientName := patientName;
      this.patientBirthDate := patientBirthDate;
      this.otherTags := otherTags;
    }

    /** Blank the patient's name and redact the birth date; no other tag changes. */
    method Anonymize()
      modifies this
      ensures patientName == ""
      ensures patientBirthDate == RedactedBirthDate(old(patientBirthDate))
      ensures otherTags == old(otherTags)
    {
      patientName := "";
      patientBirthDate := if patientBirthDate != "" then patientBirthDate[..if |patientBirthDate| < 6 then |patientBirthDate| else 6] + "15" else "";
    }
  }
}
