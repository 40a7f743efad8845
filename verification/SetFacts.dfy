/** Facts about finite sets that the table proofs share. */
module SetFacts {

  lemma {:induction false} Contained<T>(s: set<T>, t: set<T>)
    requires s <= t
    ensures |s| <= |t|
  {
    if x :| x in s {
      Contained(s - {x}, t - {x});
    }
  }

  // Some member, whichever.
  method Pick<T>(s: set<T>) returns (x: T)
    requires s != {}
    ensures x in s
  {
    x :| x in s;
  }

  ghost function Member<T>(s: set<T>): (x: T)
    requires s != {}
    ensures x in s
  {
    var x :| x in s;
    x
  }

  lemma SplitCount<T>(s: set<T>, t: set<T>)
    ensures |s - t| - |t - s| == |s| - |t|
  {
  }
}
