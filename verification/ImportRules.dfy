/** Which packages the importer accepts, and what the defaults and the stripped ids are. */
module ImportRules {
  import opened Rounding
  import opened Scoring
  import opened PackageImport

  /** A group as declared: an id that is not blank, a known mode, and points in range. */
  predicate GroupFine(g: Group) {
    Strip(g.id) != "" && (g.mode == "sum" || g.mode == "min") && 0.0 <= g.points <= 1000000.0
  }

  predicate GroupsFine(groups: seq<Group>) {
    && (forall i | 0 <= i < |groups| :: GroupFine(groups[i]))
    && forall i, j | 0 <= i < j < |groups| :: Strip(groups[i].id) != Strip(groups[j].id)
  }

  lemma {:induction false} GroupsAccepted(groups: seq<Group>)
    ensures CheckGroups(groups).Ok? <==> GroupsFine(groups)
  {
    if groups == [] {
    } else {
      var n := |groups| - 1;
      var front := groups[..n];
      GroupsAccepted(front);
      FineBack(groups);
      hide Strip, GroupsFine;
      if CheckGroups(front).Ok? {
        assert (forall i | 0 <= i < n :: Strip(front[i].id) != Strip(groups[n].id)) <==>
          Strip(groups[n].id) !in CheckGroups(front).value;
      }
    }
  }

  lemma FineBack(groups: seq<Group>)
    requires groups != []
    ensures var n := |groups| - 1;
      GroupsFine(groups) <==>
        && GroupsFine(groups[..n]) && GroupFine(groups[n])
        && forall i | 0 <= i < n :: Strip(groups[..n][i].id) != Strip(groups[n].id)
  {
    var n := |groups| - 1;
    var front, last := groups[..n], groups[n];
    assert groups == front + [last];
    FineSnoc(front, last);
  }

  lemma FineSnoc(front: seq<Group>, last: Group)
    ensures GroupsFine(front + [last]) <==>
      && GroupsFine(front) && GroupFine(last)
      && forall i | 0 <= i < |front| :: Strip(front[i].id) != Strip(last.id)
  {
    var all := front + [last];
    hide Strip, GroupFine;
    forall i | 0 <= i < |front| ensures all[i] == front[i] {
    }
    assert all[|front|] == last;
    if GroupsFine(all) {
      forall i | 0 <= i < |front| ensures GroupFine(front[i]) && Strip(front[i].id) != Strip(last.id) {
        assert GroupFine(all[i]) && Strip(all[i].id) != Strip(all[|front|].id);
      }
      forall i, j | 0 <= i < j < |front| ensures Strip(front[i].id) != Strip(front[j].id) {
        assert Strip(all[i].id) != Strip(all[j].id);
      }
    }
  }

  /** The group a case names is declared up to blanks around the id; without declared groups it is the default. */
  predicate CaseFine(groups: seq<Group>, c: ImportCase) {
    if groups == [] then c.group == "default" else exists g | g in groups :: Strip(g.id) == c.group
  }

  lemma CoverageExactly(groups: seq<Group>, cases: seq<ImportCase>)
    requires CheckGroups(groups).Ok? && cases != []
    ensures CheckCoverage(CheckGroups(groups).value, CaseGroups(cases)).Ok? <==>
      forall i | 0 <= i < |cases| :: CaseFine(groups, cases[i])
  {
    var ids, used := CheckGroups(groups).value, CaseGroups(cases);
    hide Strip;
    forall i | 0 <= i < |cases| ensures cases[i].group in used {
      assert cases[i] in cases;
    }
    if groups == [] {
      assert ids == {};
      assert cases[0].group in used;
      if forall i | 0 <= i < |cases| :: CaseFine(groups, cases[i]) {
        assert used == {"default"};
      } else {
        var i :| 0 <= i < |cases| && !CaseFine(groups, cases[i]);
        assert cases[i].group in used && cases[i].group != "default";
      }
    } else {
      assert groups[0] in groups && Strip(groups[0].id) in ids;
      if used <= ids {
        forall i | 0 <= i < |cases| ensures CaseFine(groups, cases[i]) {
          assert cases[i].group in ids;
        }
      } else {
        var id :| id in used && id !in ids;
        var i :| 0 <= i < |cases| && cases[i].group == id;
        assert !CaseFine(groups, cases[i]);
      }
    }
  }

  predicate PointsFine(c: ImportCase) {
    c.points.Some? ==> 0.0 <= c.points.value <= 1000000.0
  }

  /** An archive is imported exactly when it has 1 to 200 cases, all in range and in a declared group, and sound groups. */
  lemma ImportExactly(problem: Problem, raw: RawManifest, cases: seq<ImportCase>)
    ensures Import(problem, raw, cases).Ok? <==>
      && 1 <= |cases| <= 200 && GroupsFine(raw.groups)
      && forall i | 0 <= i < |cases| :: PointsFine(cases[i]) && CaseFine(raw.groups, cases[i])
  {
    GroupsAccepted(raw.groups);
    if cases != [] {
      var filled := WithDefaults(cases, DefaultPoints(problem, |cases|));
      if CheckGroups(raw.groups).Ok? {
        CoverageExactly(raw.groups, filled);
      }
      assert forall i | 0 <= i < |cases| :: filled[i].group == cases[i].group;
      hide CheckGroups, CheckCoverage, GroupsFine, CaseGroups, DefaultPoints, WithDefaults, Strip;
      InRangeIs(cases);
      forall i | 0 <= i < |cases| ensures CaseFine(raw.groups, filled[i]) <==> CaseFine(raw.groups, cases[i]) {
      }
    }
  }

  lemma InRangeIs(cases: seq<ImportCase>)
    ensures (forall c | c in cases :: PointsInRange(c)) <==> forall i | 0 <= i < |cases| :: PointsFine(cases[i])
  {
    forall i | 0 <= i < |cases| ensures cases[i] in cases {
    }
    if forall i | 0 <= i < |cases| :: PointsFine(cases[i]) {
      forall c | c in cases ensures PointsInRange(c) {
        var i :| 0 <= i < |cases| && cases[i] == c;
      }
    }
  }

  // ----- defaults

  lemma RoundsNear(x: real)
    ensures -0.005 <= Round2(x) - x <= 0.005
  {
    var n := RoundHalfEven(x * 100.0);
    assert Round2(x) == n as real / 100.0;
    assert -0.5 <= n as real - x * 100.0 <= 0.5;
  }

  lemma TimesNear(d: real, x: real, count: nat)
    requires -0.005 <= d - x <= 0.005
    ensures -0.005 * count as real <= count as real * d - count as real * x <= 0.005 * count as real
  {
    var n := count as real;
    assert n * d - n * x == n * (d - x);
  }

  lemma SharesOf(points: real, count: nat)
    requires count > 0
    ensures count as real * (points / count as real) == points
  {
  }

  lemma NearTotal(points: real, d: real, count: nat)
    requires count > 0 && -0.005 <= d - points / count as real <= 0.005
    ensures -0.005 * count as real <= count as real * d - points <= 0.005 * count as real
  {
    SharesOf(points, count);
    TimesNear(d, points / count as real, count);
  }

  /** As many defaults as cases make up the points of the problem, up to half a hundredth for each. */
  lemma DefaultsAddUp(problem: Problem, count: nat)
    requires count > 0
    ensures DefaultPoints(problem, count) >= 0.0
    ensures problem.points <= 0.0 ==> DefaultPoints(problem, count) == 0.0
    ensures problem.points > 0.0 ==>
      -0.005 * count as real <= count as real * DefaultPoints(problem, count) - problem.points <= 0.005 * count as real
  {
    if problem.points > 0.0 {
      var share := problem.points / count as real;
      RoundsNear(share);
      RoundToNonnegative(share, 100.0);
      hide Round2, RoundTo;
      NearTotal(problem.points, Round2(share), count);
      assert DefaultPoints(problem, count) == Round2(share);
    }
  }

  // ----- stripped ids

  predicate AllBlank(s: string) {
    forall i | 0 <= i < |s| :: Blank(s[i])
  }

  /** What is left of a stripped id has no blank at either end, and only blanks are taken off. */
  lemma {:induction false} StripHolds(s: string) returns (front: string, back: string)
    ensures s == front + Strip(s) + back && AllBlank(front) && AllBlank(back)
    ensures var r := Strip(s); r != "" ==> !Blank(r[0]) && !Blank(r[|r| - 1])
  {
    hide Blank;
    if s != "" && Blank(s[0]) {
      front, back := StripHolds(s[1..]);
      front := [s[0]] + front;
    } else if s != "" && Blank(s[|s| - 1]) {
      front, back := StripHolds(s[..|s| - 1]);
      back := back + [s[|s| - 1]];
    } else {
      front, back := "", "";
    }
  }
}
