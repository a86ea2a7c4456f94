/** The patch score computed from the clustering labels: the fraction of observations that
    DBSCAN placed in some cluster. The clustering itself is outside this model; its labels are
    an input, with `Noise` marking an observation that joined no cluster. */
module DensityScore {

  /** The label DBSCAN gives an observation that belongs to no cluster. */
  const Noise: int := -1

  /** `np.sum(labels != -1)`: how many observations joined a cluster. */
  function Clustered(labels: seq<int>): (n: nat)
    ensures n <= |labels|
  {
    if labels == [] then 0
    else Clustered(labels[..|labels| - 1]) + (if labels[|labels| - 1] != Noise then 1 else 0)
  }

  /** Nobody clustered exactly when every label is noise. */
  lemma {:induction false} NoneClustered(labels: seq<int>)
    ensures Clustered(labels) == 0 <==> forall i :: 0 <= i < |labels| ==> labels[i] == Noise
  {
    if labels != [] {
      var n := |labels| - 1;
      NoneClustered(labels[..n]);
      assert forall i :: 0 <= i < n ==> labels[..n][i] == labels[i];
    }
  }

  /** Everybody clustered exactly when no label is noise. */
  lemma {:induction false} AllClustered(labels: seq<int>)
    ensures Clustered(labels) == |labels| <==> forall i :: 0 <= i < |labels| ==> labels[i] != Noise
  {
    if labels != [] {
      var n := |labels| - 1;
      AllClustered(labels[..n]);
      assert forall i :: 0 <= i < n ==> labels[..n][i] == labels[i];
    }
  }

  /** `num_clustered_stars / total_stars`, with the total taken as the number of labels. */
  function Score(labels: seq<int>): (p: real)
    requires |labels| > 0
    ensures 0.0 <= p <= 1.0
    ensures p > 0.0 <==> Clustered(labels) > 0
  {
    Clustered(labels) as real / |labels| as real
  }

  /** The score is 1 exactly when no observation is noise and 0 exactly when all are. */
  lemma ScoreExtremes(labels: seq<int>)
    requires |labels| > 0
    ensures Score(labels) == 1.0 <==> forall i :: 0 <= i < |labels| ==> labels[i] != Noise
    ensures Score(labels) == 0.0 <==> forall i :: 0 <= i < |labels| ==> labels[i] == Noise
  {
    AllClustered(labels);
    NoneClustered(labels);
  }

  /** Twelve observations of which ten form one group and two are outliers score 10/12. */
  lemma ScoreExample()
    ensures Score([0, 0, 0, 0, 0, 0, 0, 0, 0, 0, Noise, Noise]) == 10.0 / 12.0
  {
    var labels := [0, 0, 0, 0, 0, 0, 0, 0, 0, 0, Noise, Noise];
    assert Clustered(labels) == 10 by {
      assert labels[..11][..10] == [0, 0, 0, 0, 0, 0, 0, 0, 0, 0];
      assert labels[..11] == [0, 0, 0, 0, 0, 0, 0, 0, 0, 0, Noise];
      AllClustered(labels[..11][..10]);
    }
  }
}
