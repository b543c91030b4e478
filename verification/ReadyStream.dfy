/** The stream on /system/ready: a value is published only if it differs from the one published last. */
module ReadyStream {

  /** The messages after one more value has been offered for publication. */
  function Offered(out: seq<bool>, ready: bool): seq<bool> {
    if out != [] && out[|out| - 1] == ready then out else out + [ready]
  }

  /** The messages published when the values are offered one after the other. */
  function Published(values: seq<bool>): seq<bool> {
    if values == [] then [] else Offered(Published(values[..|values| - 1]), values[|values| - 1])
  }

  predicate Alternates(out: seq<bool>) {
    forall k :: 0 < k < |out| ==> out[k] != out[k - 1]
  }

  /** `out` is `values` with every run of equal values shrunk to one: `at` says in which run each value falls. */
  predicate Shrinks(values: seq<bool>, at: seq<nat>, out: seq<bool>) {
    && |at| == |values|
    && (forall k :: 0 <= k < |values| ==> at[k] < |out| && out[at[k]] == values[k])
    && (forall j, k :: 0 <= j < k < |values| ==> at[j] <= at[k])
    && (forall k :: 0 < k < |values| ==> at[k] <= at[k - 1] + 1)
    && (values == [] ==> out == [])
    && (values != [] ==> at[0] == 0 && at[|values| - 1] == |out| - 1)
  }

  lemma OfferedShrinks(values: seq<bool>, at: seq<nat>, out: seq<bool>, ready: bool)
    requires Alternates(out) && Shrinks(values, at, out)
    ensures Alternates(Offered(out, ready))
    ensures Shrinks(values + [ready], at + [|Offered(out, ready)| - 1], Offered(out, ready))
  {
  }

  /** Publishing shrinks the offered values to an alternating stream. */
  lemma {:induction false} PublishedShrinks(values: seq<bool>) returns (at: seq<nat>)
    ensures Alternates(Published(values)) && Shrinks(values, at, Published(values))
  {
    if values == [] {
      at := [];
    } else {
      hide Alternates, Shrinks, Offered;
      var pre, ready := values[..|values| - 1], values[|values| - 1];
      var before := PublishedShrinks(pre);
      OfferedShrinks(pre, before, Published(pre), ready);
      at := before + [|Published(values)| - 1];
      assert pre + [ready] == values;
      assert Published(values) == Offered(Published(pre), ready);
    }
  }

  lemma ShrinksPrefix(values: seq<bool>, at: seq<nat>, out: seq<bool>)
    requires |values| > 1 && Alternates(out) && Shrinks(values, at, out)
    ensures
      var k := |values| - 1;
      Alternates(out[..at[k - 1] + 1]) && Shrinks(values[..k], at[..k], out[..at[k - 1] + 1])
  {
  }

  /** There is only one way to shrink a stream to an alternating one. */
  lemma {:induction false} ShrinkingIsUnique(values: seq<bool>, at: seq<nat>, out: seq<bool>)
    requires Alternates(out) && Shrinks(values, at, out)
    ensures out == Published(values)
  {
    if |values| == 1 {
      assert Published(values[..0]) == [];
      assert out == [values[0]];
    } else if |values| > 1 {
      var k := |values| - 1;
      var pre := out[..at[k - 1] + 1];
      ShrinksPrefix(values, at, out);
      ShrinkingIsUnique(values[..k], at[..k], pre);
      LastMessage(values, at, out);
    }
  }

  lemma LastMessage(values: seq<bool>, at: seq<nat>, out: seq<bool>)
    requires |values| > 1 && Alternates(out) && Shrinks(values, at, out)
    ensures
      var k := |values| - 1;
      out == Offered(out[..at[k - 1] + 1], values[k])
  {
    var k := |values| - 1;
    assert at[k] == |out| - 1;
    if at[k] == at[k - 1] {
      assert out[..at[k - 1] + 1] == out;
    } else {
      assert out == out[..at[k - 1] + 1] + [values[k]];
      assert out[at[k]] != out[at[k] - 1];
    }
  }

  lemma {:induction false} FirstIsPublished(values: seq<bool>)
    requires values != []
    ensures Published(values) != [] && Published(values)[0] == values[0]
    ensures Published(values)[|Published(values)| - 1] == values[|values| - 1]
  {
    if |values| > 1 {
      FirstIsPublished(values[..|values| - 1]);
    }
  }
}
