/** The linear-clamped scorer and filter of process_grades.py: each raw
    wallet record with positive volume and positive PnL is scored from its
    clamped PnL, win rate, capped volume and ROI, and kept; the kept records
    are listed in input order and in descending score order. */
module GradeProcessing {
  import opened Basics
  import opened Approx
  import opened Ranking

  function Min(a: real, b: real): real {
    if b < a then b else a
  }

  function Max(a: real, b: real): real {
    if b > a then b else a
  }

  /** min(1, max(0, pnl / 10000)): PnL normalised up to 10k and clamped. */
  function PnlScore(pnl: real): (s: real)
    ensures 0.0 <= s <= 1.0
    ensures 0.0 <= pnl <= 10000.0 ==> s == pnl / 10000.0
    ensures pnl <= 0.0 ==> s == 0.0
    ensures pnl >= 10000.0 ==> s == 1.0
  {
    Min(1.0, Max(0.0, pnl / 10000.0))
  }

  /** min(1, volume / 100000): capped above, but not floored. */
  function VolumeScore(volume: real): (s: real)
    ensures s <= 1.0
    ensures volume <= 100000.0 ==> s == volume / 100000.0
    ensures volume >= 100000.0 ==> s == 1.0
  {
    Min(1.0, volume / 100000.0)
  }

  /** score_user; a missing roi counts as 0. */
  function ScoreUser(round: (real, nat) -> real, pnl: real, winRate: real, volume: real, roi: Option<real>): real {
    round(100.0 * (0.4 * PnlScore(pnl) + 0.3 * winRate + 0.2 * VolumeScore(volume) + 0.1 * roi.GetOr(0.0)), 1)
  }

  /** pnl = 500, win_rate = 0.5, volume = 1000, roi = 0.5 score 22.2. */
  lemma ScoreUserExample(round: (real, nat) -> real)
    requires IsRounding(round)
    ensures ScoreUser(round, 500.0, 0.5, 1000.0, Some(0.5)) == 22.2
  {
    assert PnlScore(500.0) == 0.05;
    assert VolumeScore(1000.0) == 0.01;
    assert Decimal(222, 1) == 22.2;
  }

  /** The score never drops when one of PnL, win rate, volume or roi grows
      and the others stay. */
  lemma ScoreUserMonotone(round: (real, nat) -> real, pnl: real, winRate: real, volume: real, roi: real,
                          pnl': real, winRate': real, volume': real, roi': real)
    requires IsRounding(round)
    requires pnl <= pnl' && winRate <= winRate' && volume <= volume' && roi <= roi'
    ensures ScoreUser(round, pnl, winRate, volume, Some(roi)) <= ScoreUser(round, pnl', winRate', volume', Some(roi'))
  {
    assert PnlScore(pnl) <= PnlScore(pnl');
    assert VolumeScore(volume) <= VolumeScore(volume');
  }

  lemma MissingRoiCountsAsZero(round: (real, nat) -> real, pnl: real, winRate: real, volume: real)
    ensures ScoreUser(round, pnl, winRate, volume, None) == ScoreUser(round, pnl, winRate, volume, Some(0.0))
  {
  }

  // ----------------------------------------------------------------------
  // process_grades

  /** The metrics of one entry of raw_data.json. */
  datatype RawMetrics = RawMetrics(pnl: real, winRate: real, volume: real)
  datatype RawItem = RawItem(wallet: string, metrics: RawMetrics)

  /** One row of grades.csv. */
  datatype Record = Record(wallet: string, pnl: real, winRate: real, volume: real, roi: real, score: real)

  function RecordScore(r: Record): real {
    r.score
  }

  /** The entries process_grades keeps: positive volume and positive PnL. */
  predicate Retained(item: RawItem) {
    item.metrics.volume > 0.0 && item.metrics.pnl > 0.0
  }

  /** The row written for an entry; roi keeps the code's own guard on the
      volume. */
  function RecordOf(round: (real, nat) -> real, item: RawItem): Record {
    var m := item.metrics;
    var roi := if m.volume > 0.0 then m.pnl / m.volume else 0.0;
    Record(item.wallet, round(m.pnl, 2), round(m.winRate, 4), round(m.volume, 2), round(roi, 4),
           ScoreUser(round, m.pnl, m.winRate, m.volume, Some(roi)))
  }

  /** The rows of grades.csv for these entries. */
  function Graded(round: (real, nat) -> real, raw: seq<RawItem>): seq<Record> {
    if raw == [] then []
    else (if Retained(raw[0]) then [RecordOf(round, raw[0])] else []) + Graded(round, raw[1..])
  }

  /** process_grades: the kept rows in input order, and their score ranking. */
  method ProcessGrades(raw: seq<RawItem>, round: (real, nat) -> real) returns (grades: seq<Record>, ranked: seq<Record>)
    ensures grades == Graded(round, raw)
    ensures ranked == SortDesc(grades, RecordScore)
  {
    grades := [];
    var i := 0;
    while i < |raw|
      invariant 0 <= i <= |raw|
      invariant grades == Graded(round, raw[..i])
    {
      var item := raw[i];
      var m := item.metrics;
      GradedOneMore(round, raw, i);
      if m.volume > 0.0 {
        var roi := if m.volume > 0.0 then m.pnl / m.volume else 0.0;
        var score := ScoreUser(round, m.pnl, m.winRate, m.volume, Some(roi));
        if m.pnl > 0.0 {
          grades := grades + [Record(item.wallet, round(m.pnl, 2), round(m.winRate, 4), round(m.volume, 2), round(roi, 4), score)];
        }
      }
      i := i + 1;
    }
    assert raw[..i] == raw;
    ranked := SortDesc(grades, RecordScore);
  }

  lemma GradedOneMore(round: (real, nat) -> real, raw: seq<RawItem>, i: nat)
    requires i < |raw|
    ensures Graded(round, raw[..i + 1])
         == Graded(round, raw[..i]) + (if Retained(raw[i]) then [RecordOf(round, raw[i])] else [])
  {
    assert raw[..i + 1] == raw[..i] + [raw[i]];
    GradedAppend(round, raw[..i], [raw[i]]);
    assert [raw[i]][1..] == [];
  }

  /** Filtering keeps the input order: the rows of two runs of entries are
      the rows of the first run followed by those of the second. */
  lemma {:induction false} GradedAppend(round: (real, nat) -> real, a: seq<RawItem>, b: seq<RawItem>)
    ensures Graded(round, a + b) == Graded(round, a) + Graded(round, b)
  {
    if a == [] {
      assert a + b == b;
    } else {
      assert (a + b)[0] == a[0];
      assert (a + b)[1..] == a[1..] + b;
      GradedAppend(round, a[1..], b);
      var h := if Retained(a[0]) then [RecordOf(round, a[0])] else [];
      assert Graded(round, a + b) == h + (Graded(round, a[1..]) + Graded(round, b));
      assert h + (Graded(round, a[1..]) + Graded(round, b)) == (h + Graded(round, a[1..])) + Graded(round, b);
    }
  }

  /** r is the row of a kept entry: its wallet, roi pnl / volume (no
      division by zero, the volume is positive) and the score of those. */
  predicate RowOf(round: (real, nat) -> real, r: Record, item: RawItem) {
    && Retained(item)
    && r == RecordOf(round, item)
    && r.wallet == item.wallet
    && r.roi == round(item.metrics.pnl / item.metrics.volume, 4)
    && r.score == ScoreUser(round, item.metrics.pnl, item.metrics.winRate, item.metrics.volume,
                            Some(item.metrics.pnl / item.metrics.volume))
  }

  /** Every row comes from a kept entry (positive volume and PnL). */
  lemma {:induction false} GradedOnlyRetained(round: (real, nat) -> real, raw: seq<RawItem>)
    ensures forall r :: r in Graded(round, raw) ==> exists item :: item in raw && RowOf(round, r, item)
  {
    if raw != [] {
      GradedOnlyRetained(round, raw[1..]);
      forall r | r in Graded(round, raw)
        ensures exists item :: item in raw && RowOf(round, r, item)
      {
        if Retained(raw[0]) && r == RecordOf(round, raw[0]) {
          assert raw[0] in raw;
        } else {
          assert r in Graded(round, raw[1..]);
          var item :| item in raw[1..] && RowOf(round, r, item);
          assert item in raw;
        }
      }
    }
  }

  /** Every kept entry has its row. */
  lemma {:induction false} RetainedAreGraded(round: (real, nat) -> real, raw: seq<RawItem>, item: RawItem)
    requires item in raw && Retained(item)
    ensures RecordOf(round, item) in Graded(round, raw)
  {
    if raw[0] != item {
      assert item in raw[1..];
      RetainedAreGraded(round, raw[1..], item);
    }
  }

  /** A wallet none of whose entries has both positive volume and positive
      PnL appears in neither output. */
  lemma DroppedWalletAbsent(round: (real, nat) -> real, raw: seq<RawItem>, w: string)
    requires forall item :: item in raw && item.wallet == w ==> !Retained(item)
    ensures forall r :: r in Graded(round, raw) ==> r.wallet != w
    ensures forall r :: r in SortDesc(Graded(round, raw), RecordScore) ==> r.wallet != w
  {
    GradedOnlyRetained(round, raw);
    var grades := Graded(round, raw);
    forall r | r in SortDesc(grades, RecordScore) ensures r in grades {
      assert r in multiset(SortDesc(grades, RecordScore));
    }
  }
}
