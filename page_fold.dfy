/** Merging one dictionary per page into a single dictionary, page after page
    in increasing order, the way `search_products` fills `matches` and
    `to_json_file` fills `temp` with `dict.update`: a later page's entry
    replaces an earlier page's entry under the same name, and the first page
    that raises ends the whole merge with that exception. */
module PageFold {

  import opened Exceptions

  /** What one page contributes, or the exception raised while loading it. */
  type Loader<V> = int -> Result<map<string, V>>

  /** Pages `start` to `stop - 1`, merged in increasing order. */
  function Accumulate<V>(load: Loader<V>, start: int, stop: int): Result<map<string, V>>
    decreases stop - start
  {
    if stop <= start then Ok(map[])
    else
      var acc :- Accumulate(load, start, stop - 1);
      var page :- load(stop - 1);
      Ok(acc + page)
  }

  /** Once the pages before `mid` have raised, the pages after it are never
      reached. */
  lemma {:induction false} AccumulatePrefixErr<V>(load: Loader<V>, start: int, mid: int, stop: int)
    requires start <= mid <= stop && Accumulate(load, start, mid).Err?
    ensures Accumulate(load, start, stop) == Accumulate(load, start, mid)
    decreases stop - mid
  {
    if mid < stop {
      AccumulatePrefixErr(load, start, mid, stop - 1);
    }
  }

  /** The merge succeeds exactly when every page of the range loads. */
  lemma {:induction false} AccumulateOk<V>(load: Loader<V>, start: int, stop: int)
    ensures Accumulate(load, start, stop).Ok? <==> forall p :: start <= p < stop ==> load(p).Ok?
    decreases stop - start
  {
    if start < stop {
      AccumulateOk(load, start, stop - 1);
    }
  }

  /** A failing merge raises the exception of the first page that fails. */
  lemma {:induction false} AccumulateFirstError<V>(load: Loader<V>, start: int, stop: int, p: int)
    requires start <= p < stop && load(p).Err?
    requires forall q :: start <= q < p ==> load(q).Ok?
    ensures Accumulate(load, start, stop) == Err(load(p).error)
    decreases stop - start
  {
    if p < stop - 1 {
      AccumulateFirstError(load, start, stop - 1, p);
    } else {
      AccumulateOk(load, start, p);
    }
  }

  /** The merged names are the union of the pages' names. */
  lemma {:induction false} AccumulateKeys<V>(load: Loader<V>, start: int, stop: int, n: string)
    requires Accumulate(load, start, stop).Ok?
    ensures n in Accumulate(load, start, stop).value <==>
              exists p :: start <= p < stop && load(p).Ok? && n in load(p).value
    decreases stop - start
  {
    if start < stop {
      AccumulateKeys(load, start, stop - 1, n);
    }
  }

  /** Every merged entry is the entry of some page of the range under the
      same name. */
  lemma {:induction false} AccumulateValueOrigin<V>(load: Loader<V>, start: int, stop: int, n: string)
    requires Accumulate(load, start, stop).Ok? && n in Accumulate(load, start, stop).value
    ensures exists p :: start <= p < stop && load(p).Ok? && n in load(p).value &&
                        Accumulate(load, start, stop).value[n] == load(p).value[n]
    decreases stop - start
  {
    var page := load(stop - 1);
    if n !in page.value {
      AccumulateValueOrigin(load, start, stop - 1, n);
    } else {
      assert start <= stop - 1 < stop && load(stop - 1).Ok? && n in load(stop - 1).value;
    }
  }

  /** A name's merged entry is the one of the last page that has the name. */
  lemma {:induction false} AccumulateLastWins<V>(load: Loader<V>, start: int, stop: int, p: int, n: string)
    requires Accumulate(load, start, stop).Ok?
    requires start <= p < stop && load(p).Ok? && n in load(p).value
    requires forall q :: p < q < stop && load(q).Ok? ==> n !in load(q).value
    ensures n in Accumulate(load, start, stop).value
    ensures Accumulate(load, start, stop).value[n] == load(p).value[n]
    decreases stop - start
  {
    if p < stop - 1 {
      AccumulateLastWins(load, start, stop - 1, p, n);
    }
  }

  /** The merge reads nothing but the pages of its range. */
  lemma {:induction false} AccumulateFrame<V>(load: Loader<V>, load': Loader<V>, start: int, stop: int)
    requires forall p :: start <= p < stop ==> load(p) == load'(p)
    ensures Accumulate(load, start, stop) == Accumulate(load', start, stop)
    decreases stop - start
  {
    if start < stop {
      AccumulateFrame(load, load', start, stop - 1);
    }
  }
}
