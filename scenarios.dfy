/** Concrete evaluations of the listing page's filter and drop-downs on small data. */
module Scenarios {
  import opened Wrappers
  import opened Text
  import opened Listing
  import opened Vocabulary

  function Episode(id: string, title: string, season: string, smp: bool, tag: string): Stream {
    Stream(id, title, None, None, Some(season), None, Some(smp), None, Some([tag]), "")
  }

  /** Two episodes, only the first of them on the SMP. */
  function TwoEpisodes(): seq<Stream> {
    [Episode("1", "Ep1", "S1", true, "funny"), Episode("2", "Ep2", "S2", false, "serious")]
  }

  /** SMP "yes" keeps only the episode whose `smp` is true. */
  lemma SmpYesScenario()
    ensures Filter(TwoEpisodes(), NO_CRITERIA.(smp := "yes")) == [TwoEpisodes()[0]]
  {
    var data, c := TwoEpisodes(), NO_CRITERIA.(smp := "yes");
    EmptySearchMatches(data[0]);
    assert data[1..][1..] == [];
  }

  /** Searching "ep2" finds "Ep2" and not "Ep1", whatever the case. */
  lemma SearchScenario()
    ensures Filter(TwoEpisodes(), NO_CRITERIA.(search := "ep2")) == [TwoEpisodes()[1]]
  {
    var data := TwoEpisodes();
    assert ToLower("ep2") == "ep2";
    assert ToLower("Ep1") == "ep1";
    assert ToLower("Ep2") == "ep2";
    assert OccursAt("ep2", "ep2", 0);
    assert !Contains("ep2", "ep1") by {
      forall i ensures !OccursAt("ep2", "ep1", i) {
        if i == 0 {
          assert "ep1"[0..3] == "ep1";
          assert "ep1"[2] != "ep2"[2];
        }
      }
    }
    assert data[1..][1..] == [];
  }

  /** Absent and empty seasons are left out of the season drop-down. */
  lemma SeasonsScenario()
    ensures Seasons([Episode("1", "a", "A", true, ""), Episode("2", "b", "", true, ""),
                     Episode("3", "c", "A", true, "").(season := None), Episode("4", "d", "B", true, "")])
            == ["A", "B"]
  {
    var values: seq<Option<string>> := [Some("A"), Some(""), None, Some("B")];
    var d := [Some("A"), Some(""), None, Some("B")];
    var data := [Episode("1", "a", "A", true, ""), Episode("2", "b", "", true, ""),
                 Episode("3", "c", "A", true, "").(season := None), Episode("4", "d", "B", true, "")];
    assert SeasonValues(data) == values;
    assert Distinct(values[..1]) == [Some("A")];
    assert values[..2][..1] == values[..1];
    assert Distinct(values[..2]) == [Some("A"), Some("")];
    assert values[..3][..2] == values[..2];
    assert Distinct(values[..3]) == [Some("A"), Some(""), None];
    assert values[..3] == values[..|values| - 1];
    assert Distinct(values) == d;
    assert d[..1][..0] == [];
    assert KeepTruthy(d[..1]) == ["A"];
    assert d[..2][..1] == d[..1];
    assert KeepTruthy(d[..2]) == ["A"];
    assert d[..3][..2] == d[..2];
    assert KeepTruthy(d[..3]) == ["A"];
    assert d[..3] == d[..|d| - 1];
    assert KeepTruthy(d) == ["A", "B"];
  }
}
