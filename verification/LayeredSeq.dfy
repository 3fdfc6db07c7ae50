/** A sequence kept in layers, as a value: the indices below base live in frozen layers,
  * which may still hold values that have been popped since.
  */
module LayeredSeq {
  datatype Split<T> = Split(under: seq<T>, base: nat, top: seq<T>)
  {
    predicate Ok()
    {
      base <= |under|
    }

    function Contents(): seq<T>
      requires Ok()
    {
      under[..base] + top
    }

    function Pushed(v: T): Split<T>
    {
      this.(top := top + [v])
    }

    function Discarded(n: nat): Split<T>
      requires Ok() && n <= base + |top|
    {
      if n <= |top| then this.(top := top[..|top| - n]) else this.(base := base + |top| - n, top := [])
    }

    function Stored(i: nat, v: T): Split<T>
      requires base <= i < base + |top|
    {
      this.(top := top[i - base := v])
    }

    /** The freeze: all of it becomes one frozen sequence under an empty top. */
    function Lowered(): Split<T>
      requires Ok()
    {
      Split(Contents(), base + |top|, [])
    }

    /** Bringing the values from an index on up into the top layer. */
    function Raised(from: nat): Split<T>
      requires Ok() && from <= base + |top|
    {
      if from < base then this.(base := from, top := Contents()[from..]) else this
    }
  }

  lemma PushedContents<T>(s: Split<T>, v: T)
    requires s.Ok()
    ensures s.Pushed(v).Ok() && s.Pushed(v).Contents() == s.Contents() + [v]
  {
  }

  lemma DiscardedContents<T>(s: Split<T>, n: nat)
    requires s.Ok() && n <= s.base + |s.top|
    ensures s.Discarded(n).Ok() && s.Discarded(n).Contents() == s.Contents()[..|s.Contents()| - n]
  {
  }

  lemma StoredContents<T>(s: Split<T>, i: nat, v: T)
    requires s.Ok() && s.base <= i < s.base + |s.top|
    ensures s.Stored(i, v).Ok() && s.Stored(i, v).Contents() == s.Contents()[i := v]
  {
  }

  lemma LoweredContents<T>(s: Split<T>)
    requires s.Ok()
    ensures s.Lowered().Ok() && s.Lowered().Contents() == s.Contents()
  {
  }

  lemma RaisedContents<T>(s: Split<T>, from: nat)
    requires s.Ok() && from <= s.base + |s.top|
    ensures s.Raised(from).Ok() && s.Raised(from).Contents() == s.Contents()
  {
  }
}
