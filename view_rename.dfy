// The renaming step at the end of `generate_mv_adapter`
// (comfy_mv_api.py): the saved views `ComfyUI_*.png` of the output folder
// are sorted by name, and the last three get the view names front, back
// and left in place of their final `_`.

module ViewRename {
  import opened Options
  import opened Strings
  import opened Jobs

  /** `view_names` */
  const ViewNames: seq<string> := ["front", "back", "left"]

  /** The text each new name is made from, `_.png`. */
  const Marker: string := "_.png"

  /** `f.endswith(".png") and f.startswith("ComfyUI_")` */
  predicate IsCandidate(name: string) {
    EndsWith(name, ".png") && StartsWith(name, "ComfyUI_")
  }

  /** The list comprehension over `os.listdir(output_dir)`. */
  function Candidates(listing: seq<string>): (r: seq<string>)
    ensures forall name :: name in r <==> name in listing && IsCandidate(name)
    ensures |r| <= |listing|
  {
    if |listing| == 0 then []
    else if IsCandidate(listing[0]) then [listing[0]] + Candidates(listing[1..])
    else Candidates(listing[1..])
  }

  /** `files[-3:]` */
  function LastThree(files: seq<string>): (r: seq<string>)
    ensures |r| == if |files| < 3 then |files| else 3
    ensures forall i :: 0 <= i < |r| ==> r[i] == files[|files| - |r| + i]
  {
    if |files| <= 3 then files else files[|files| - 3..]
  }

  /** `old_name.replace("_.png", f"_{view}.png")` */
  function NewName(oldName: string, view: string): string {
    ReplaceAll(oldName, Marker, "_" + view + ".png")
  }

  /**
   * The `(old_name, new_name)` pairs the loop renames: the candidates in
   * name order, the last three of them, each zipped with its view.
   */
  function RenamePlan(listing: seq<string>): (plan: seq<(string, string)>)
    ensures var files := Sort(Candidates(listing));
      && |plan| == (if |files| < 3 then |files| else 3)
      && forall i :: 0 <= i < |plan| ==>
           && plan[i].0 == files[|files| - |plan| + i]
           && plan[i].1 == NewName(plan[i].0, ViewNames[i])
  {
    var files := Sort(Candidates(listing));
    var last := LastThree(files);
    assert |last| <= |ViewNames|;
    var plan := seq(|last|, i requires 0 <= i < |last| => (last[i], NewName(last[i], ViewNames[i])));
    assert forall i :: 0 <= i < |plan| ==> plan[i].0 == last[i];
    plan
  }

  // ---------------------------------------------------------------------
  // What a new name looks like

  /** A name in which `_.png` does not occur keeps its name. */
  lemma NewNameWithoutMarker(oldName: string, view: string)
    requires !Contains(oldName, Marker)
    ensures NewName(oldName, view) == oldName
  {
    ReplaceAllWithoutOccurrence(oldName, Marker, "_" + view + ".png");
  }

  /** After a leading `_.png`, a name ending in `.png` is either over or
    * still ends in `.png`: the ending cannot overlap the marker. */
  lemma PngAfterMarker(s: string)
    requires EndsWith(s, ".png") && StartsWith(s, Marker)
    ensures |s| == |Marker| || EndsWith(s[|Marker|..], ".png")
  {
    var t := s[|Marker|..];
    assert s[|s| - 4] == '.';
    assert s[2] == 'p' && s[3] == 'n' && s[4] == 'g';
    if |t| >= 4 {
      assert t[|t| - 4..] == s[|s| - 4..];
    }
  }

  /** A replacement that ends in `.png` keeps the `.png` ending. */
  lemma {:induction false} ReplaceKeepsPngEnding(s: string, rep: string)
    requires EndsWith(s, ".png") && EndsWith(rep, ".png")
    ensures EndsWith(ReplaceAll(s, Marker, rep), ".png")
    decreases |s|
  {
    if |s| >= |Marker| {
      var r := ReplaceAll(s, Marker, rep);
      if s[..|Marker|] == Marker {
        var t := s[|Marker|..];
        PngAfterMarker(s);
        if |t| == 0 {
          assert r == rep;
        } else {
          ReplaceKeepsPngEnding(t, rep);
          EndsWithAfterPrefix(rep, ReplaceAll(t, Marker, rep), ".png");
        }
      } else {
        var t := s[1..];
        assert t[|t| - 4..] == s[|s| - 4..];
        ReplaceKeepsPngEnding(t, rep);
        EndsWithAfterPrefix([s[0]], ReplaceAll(t, Marker, rep), ".png");
      }
    }
  }

  /** A new name passes the filter again: files renamed by an earlier
    * request are candidates of every later one. */
  lemma NewNameIsCandidate(oldName: string, view: string)
    requires IsCandidate(oldName)
    ensures IsCandidate(NewName(oldName, view))
  {
    var rep := "_" + view + ".png";
    var rest := oldName[7..];
    assert oldName == "ComfyUI" + rest;
    ReplaceAllSkipsPrefix("ComfyUI", rest, Marker, rep);
    assert rest[0] == '_';
    ReplaceAllKeepsFirst(rest, Marker, rep);
    assert rep[|rep| - 4..] == ".png";
    ReplaceKeepsPngEnding(oldName, rep);
  }

  predicate IsDigits(s: string) {
    forall k :: 0 <= k < |s| ==> '0' <= s[k] <= '9'
  }

  /** `_.png` alone becomes the replacement. */
  lemma MarkerReplaced(rep: string)
    ensures ReplaceAll(Marker, Marker, rep) == rep
  {
    assert Marker[..|Marker|] == Marker;
    assert Marker[|Marker|..] == "";
  }

  /** Digits are copied, and the `_.png` after them is replaced. */
  lemma DigitsThenMarker(counter: string, rep: string)
    requires IsDigits(counter)
    ensures ReplaceAll(counter + Marker, Marker, rep) == counter + rep
  {
    ReplaceAllSkipsPrefix(counter, Marker, Marker, rep);
    MarkerReplaced(rep);
  }

  /** A `_` followed by a digit does not begin an occurrence of `_.png`. */
  lemma UnderscoreBeforeDigit(d: string, rep: string)
    requires |d| > 0 && '0' <= d[0] <= '9'
    ensures ReplaceAll("_" + d, Marker, rep) == "_" + ReplaceAll(d, Marker, rep)
  {
    var s := "_" + d;
    assert s[1..] == d;
    if |s| >= |Marker| {
      assert s[..|Marker|][1] == d[0];
    }
  }

  /** After a head without `_`, a `_`, and digits, the one `_.png` is
    * replaced. */
  lemma CounterThenMarker(head: string, counter: string, rep: string)
    requires forall k :: 0 <= k < |head| ==> head[k] != '_'
    requires |counter| > 0 && IsDigits(counter)
    ensures ReplaceAll(head + ("_" + (counter + Marker)), Marker, rep) == head + ("_" + (counter + rep))
  {
    UnderscoreBeforeDigit(counter + Marker, rep);
    DigitsThenMarker(counter, rep);
    ReplaceAllSkipsPrefix(head, "_" + (counter + Marker), Marker, rep);
  }

  /** The names the save node writes, `ComfyUI_<counter>_.png`, become
    * `ComfyUI_<counter>_<view>.png`. */
  lemma SavedNameGetsView(counter: string, view: string)
    requires |counter| > 0 && IsDigits(counter)
    ensures NewName("ComfyUI_" + counter + "_.png", view) == "ComfyUI_" + counter + "_" + view + ".png"
  {
    var rep := "_" + view + ".png";
    CounterThenMarker("ComfyUI", counter, rep);
    assert "ComfyUI_" + counter + "_.png" == "ComfyUI" + ("_" + (counter + Marker));
    assert "ComfyUI_" + counter + "_" + view + ".png" == "ComfyUI" + ("_" + (counter + rep));
  }

  /** Every new name of the plan passes the filter. */
  lemma PlanTargetsAreCandidates(listing: seq<string>)
    ensures forall i :: 0 <= i < |RenamePlan(listing)| ==> IsCandidate(RenamePlan(listing)[i].1)
  {
    var plan := RenamePlan(listing);
    var files := Sort(Candidates(listing));
    forall i | 0 <= i < |plan| ensures IsCandidate(plan[i].1) {
      assert plan[i].0 in files;
      assert plan[i].0 in multiset(Candidates(listing));
      NewNameIsCandidate(plan[i].0, ViewNames[i]);
    }
  }

  /** The renamed files are distinct when the listing is. */
  lemma PlanSourcesDistinct(listing: seq<string>)
    requires forall i, j :: 0 <= i < j < |listing| ==> listing[i] != listing[j]
    ensures forall i, j :: 0 <= i < j < |RenamePlan(listing)| ==> RenamePlan(listing)[i].0 != RenamePlan(listing)[j].0
  {
    CandidatesDistinct(listing);
    PermutationKeepsDistinct(Candidates(listing), Sort(Candidates(listing)));
  }

  lemma {:induction false} CandidatesDistinct(listing: seq<string>)
    requires forall i, j :: 0 <= i < j < |listing| ==> listing[i] != listing[j]
    ensures forall i, j :: 0 <= i < j < |Candidates(listing)| ==> Candidates(listing)[i] != Candidates(listing)[j]
    decreases |listing|
  {
    if |listing| > 0 {
      CandidatesDistinct(listing[1..]);
      if IsCandidate(listing[0]) {
        assert listing[0] !in listing[1..];
        assert listing[0] !in Candidates(listing[1..]);
      }
    }
  }

  /** An element at two positions occurs twice. */
  lemma TwoOccurrences(t: seq<string>, i: nat, j: nat)
    requires i < j < |t| && t[i] == t[j]
    ensures multiset(t)[t[i]] >= 2
  {
    assert t == t[..i] + [t[i]] + t[i + 1..j] + [t[j]] + t[j + 1..];
  }

  lemma {:induction false} OccursOnce(s: seq<string>, x: string)
    requires forall i, j :: 0 <= i < j < |s| ==> s[i] != s[j]
    ensures multiset(s)[x] <= 1
    decreases |s|
  {
    if |s| > 0 {
      assert s == [s[0]] + s[1..];
      OccursOnce(s[1..], x);
      if s[0] == x {
        assert x !in s[1..];
      }
    }
  }

  /** Every arrangement of a sequence without repetitions is without
    * repetitions. */
  lemma PermutationKeepsDistinct(s: seq<string>, t: seq<string>)
    requires forall i, j :: 0 <= i < j < |s| ==> s[i] != s[j]
    requires multiset(s) == multiset(t)
    ensures forall i, j :: 0 <= i < j < |t| ==> t[i] != t[j]
  {
    forall i, j | 0 <= i < j < |t| ensures t[i] != t[j] {
      OccursOnce(s, t[i]);
      if t[i] == t[j] {
        TwoOccurrences(t, i, j);
      }
    }
  }

  // ---------------------------------------------------------------------
  // Carrying the plan out

  /** What a run of renames leaves: the folder, and the exception that
    * stopped it, if any. Renames done before the exception stay done. */
  datatype RenameRun = RenameRun(entries: map<string, nat>, failure: Option<Failure>)

  /** POSIX `rename`: the target is replaced silently, and renaming a name
    * to itself changes nothing. */
  function Renamed(m: map<string, nat>, oldName: string, newName: string): (r: map<string, nat>)
    requires oldName in m
    ensures newName in r && r[newName] == m[oldName]
    ensures forall name :: name != oldName && name != newName ==> (name in r <==> name in m)
    ensures forall name :: name != oldName && name != newName && name in m ==> r[name] == m[name]
    ensures oldName != newName ==> oldName !in r
  {
    if oldName == newName then m else (m - {oldName})[newName := m[oldName]]
  }

  /** The renames in order, stopping at the first missing source. */
  function ApplyRenames(m: map<string, nat>, plan: seq<(string, string)>): RenameRun
    decreases |plan|
  {
    if |plan| == 0 then RenameRun(m, None)
    else if plan[0].0 !in m then RenameRun(m, Some(FileNotFound(plan[0].0)))
    else ApplyRenames(Renamed(m, plan[0].0, plan[0].1), plan[1..])
  }

  /** A plan whose sources are distinct entries of the folder runs to the end. */
  lemma {:induction false} DistinctPlanSucceeds(m: map<string, nat>, plan: seq<(string, string)>)
    requires forall i :: 0 <= i < |plan| ==> plan[i].0 in m
    requires forall i, j :: 0 <= i < j < |plan| ==> plan[i].0 != plan[j].0
    ensures ApplyRenames(m, plan).failure.None?
    decreases |plan|
  {
    if |plan| > 0 {
      var m' := Renamed(m, plan[0].0, plan[0].1);
      forall i | 0 <= i < |plan[1..]| ensures plan[1..][i].0 in m' {
        assert plan[1..][i] == plan[i + 1];
        assert plan[i + 1].0 != plan[0].0;
      }
      DistinctPlanSucceeds(m', plan[1..]);
    }
  }

  /** A file the plan does not name keeps its contents, and a name the
    * plan does not use stays absent. */
  lemma {:induction false} OthersUntouched(m: map<string, nat>, plan: seq<(string, string)>, name: string)
    requires forall i :: 0 <= i < |plan| ==> plan[i].0 != name && plan[i].1 != name
    ensures name in ApplyRenames(m, plan).entries <==> name in m
    ensures name in m ==> ApplyRenames(m, plan).entries[name] == m[name]
    decreases |plan|
  {
    if |plan| > 0 && plan[0].0 in m {
      forall i | 0 <= i < |plan[1..]| ensures plan[1..][i].0 != name && plan[1..][i].1 != name {
        assert plan[1..][i] == plan[i + 1];
      }
      OthersUntouched(Renamed(m, plan[0].0, plan[0].1), plan[1..], name);
    }
  }

  /** The plan made from a listing of the folder always runs to the end. */
  lemma PlanSucceeds(m: map<string, nat>, listing: seq<string>)
    requires forall name :: name in listing <==> name in m
    requires forall i, j :: 0 <= i < j < |listing| ==> listing[i] != listing[j]
    ensures ApplyRenames(m, RenamePlan(listing)).failure.None?
  {
    var plan := RenamePlan(listing);
    var files := Sort(Candidates(listing));
    forall i | 0 <= i < |plan| ensures plan[i].0 in m {
      assert plan[i].0 in files;
      assert plan[i].0 in multiset(Candidates(listing));
    }
    PlanSourcesDistinct(listing);
    DistinctPlanSucceeds(m, plan);
  }

  /** The folder the loop works on, `output`. */
  class Directory {
    /** Its files, each name mapped to the file's contents. */
    var entries: map<string, nat>

    constructor (entries: map<string, nat>)
      ensures this.entries == entries
    {
      this.entries := entries;
    }

    /** `os.rename` of one file of the folder. */
    method Rename(oldName: string, newName: string) returns (failure: Option<Failure>)
      modifies this
      ensures old(oldName in entries) ==> failure.None? && entries == Renamed(old(entries), oldName, newName)
      ensures old(oldName !in entries) ==> failure == Some(FileNotFound(oldName)) && entries == old(entries)
    {
      if oldName !in entries {
        return Some(FileNotFound(oldName));
      }
      entries := Renamed(entries, oldName, newName);
      failure := None;
    }

    /** The `for old_name, view in zip(last_three, view_names)` loop. */
    method ApplyPlan(plan: seq<(string, string)>) returns (failure: Option<Failure>)
      modifies this
      ensures RenameRun(entries, failure) == ApplyRenames(old(entries), plan)
    {
      var i := 0;
      while i < |plan|
        invariant 0 <= i <= |plan|
        invariant ApplyRenames(old(entries), plan) == ApplyRenames(entries, plan[i..])
      {
        assert plan[i..][1..] == plan[i + 1..];
        failure := Rename(plan[i].0, plan[i].1);
        if failure.Some? {
          return;
        }
        i := i + 1;
      }
      failure := None;
    }
  }
}
