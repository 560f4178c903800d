/**
 * `utils.extend(obj, props1, ..., propsN)`: copy into `obj` every own
 * property of each `props` argument that `obj` does not own yet, in argument
 * order, and return `obj`. An object's own properties are a map from
 * property name to value.
 */
module Utils {
  import opened Js

  /** One `props` argument merged into `obj`: a property already owned is kept. */
  function FillMissing(obj: map<string, Value>, props: map<string, Value>): (r: map<string, Value>)
  {
    map k | k in obj.Keys + props.Keys :: if k in obj then obj[k] else props[k]
  }

  /** The own properties of `obj` after `extend(obj, sources[0], ..., sources[n-1])`. */
  function Extended(obj: map<string, Value>, sources: seq<map<string, Value>>): map<string, Value>
    decreases |sources|
  {
    if |sources| == 0 then obj
    else FillMissing(Extended(obj, sources[..|sources| - 1]), sources[|sources| - 1])
  }

  /** Every property name owned by some argument in `sources`. */
  function NamesOf(sources: seq<map<string, Value>>): set<string>
    decreases |sources|
  {
    if |sources| == 0 then {} else NamesOf(sources[..|sources| - 1]) + sources[|sources| - 1].Keys
  }

  /** A JavaScript object whose own properties `extend` mutates in place. */
  class JsObject {
    var own: map<string, Value>

    constructor(own: map<string, Value>)
      ensures this.own == own
    {
      this.own := own;
    }

    /**
     * `extend(this, sources...)`: walks the arguments in order and, within
     * each, its own property names, defining each name this object does not
     * own yet. Returns the object it was given.
     */
    method Extend(sources: seq<map<string, Value>>) returns (r: JsObject)
      modifies this
      ensures r == this
      ensures own == Extended(old(own), sources)
    {
      var i := 0;
      while i < |sources|
        invariant 0 <= i <= |sources|
        invariant own == Extended(old(own), sources[..i])
      {
        var props := sources[i];
        ghost var before := own;
        var names := props.Keys;
        while names != {}
          invariant names <= props.Keys
          invariant own == FillMissing(before, props - names)
          decreases names
        {
          var prop :| prop in names;
          if prop !in own {
            own := own[prop := props[prop]];
          }
          names := names - {prop};
        }
        assert props - {} == props;
        assert sources[..i + 1][..i] == sources[..i];
        i := i + 1;
      }
      assert sources[..|sources|] == sources;
      r := this;
    }
  }

  /** `extend` never changes a property that `obj` already owns. */
  lemma {:induction false} ExtendedKeepsOwn(obj: map<string, Value>, sources: seq<map<string, Value>>)
    ensures forall k :: k in obj ==> k in Extended(obj, sources) && Extended(obj, sources)[k] == obj[k]
    decreases |sources|
  {
    if |sources| > 0 {
      ExtendedKeepsOwn(obj, sources[..|sources| - 1]);
    }
  }

  /** After `extend`, `obj` owns exactly its original names and those of every argument. */
  lemma {:induction false} ExtendedKeys(obj: map<string, Value>, sources: seq<map<string, Value>>)
    ensures Extended(obj, sources).Keys == obj.Keys + NamesOf(sources)
    decreases |sources|
  {
    if |sources| > 0 {
      ExtendedKeys(obj, sources[..|sources| - 1]);
    }
  }

  /**
   * A name `obj` lacks takes its value from the earliest argument that owns it:
   * later arguments find the name already defined.
   */
  lemma {:induction false} ExtendedEarliestWins(obj: map<string, Value>, sources: seq<map<string, Value>>, i: nat, k: string)
    requires k !in obj
    requires i < |sources| && k in sources[i]
    requires forall j :: 0 <= j < i ==> k !in sources[j]
    ensures k in Extended(obj, sources) && Extended(obj, sources)[k] == sources[i][k]
    decreases |sources|
  {
    var n := |sources| - 1;
    if i == n {
      NotYetNamed(obj, sources[..n], k);
    } else {
      ExtendedEarliestWins(obj, sources[..n], i, k);
    }
  }

  /** A name owned by neither `obj` nor any argument is still absent after `extend`. */
  lemma {:induction false} NotYetNamed(obj: map<string, Value>, sources: seq<map<string, Value>>, k: string)
    requires k !in obj
    requires forall j :: 0 <= j < |sources| ==> k !in sources[j]
    ensures k !in Extended(obj, sources)
    decreases |sources|
  {
    if |sources| > 0 {
      NotYetNamed(obj, sources[..|sources| - 1], k);
    }
  }

  /** Extending an object that already owns every name of the arguments changes nothing. */
  lemma {:induction false} ExtendedCovered(obj: map<string, Value>, sources: seq<map<string, Value>>)
    requires NamesOf(sources) <= obj.Keys
    ensures Extended(obj, sources) == obj
    decreases |sources|
  {
    if |sources| > 0 {
      var n := |sources| - 1;
      ExtendedCovered(obj, sources[..n]);
      assert FillMissing(obj, sources[n]) == obj;
    }
  }

  /** Applying `extend` a second time with the same arguments gives the same object. */
  lemma ExtendedIdempotent(obj: map<string, Value>, sources: seq<map<string, Value>>)
    ensures Extended(Extended(obj, sources), sources) == Extended(obj, sources)
  {
    ExtendedKeys(obj, sources);
    ExtendedCovered(Extended(obj, sources), sources);
  }

  /** `extend({}, o)` is a shallow copy of `o`'s own properties. */
  lemma ExtendedEmptyCopies(o: map<string, Value>)
    ensures Extended(map[], [o]) == o
  {
    assert [o][..0] == [];
  }
}
