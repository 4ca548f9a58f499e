/** The counting wait group shared by the goroutines of one gRPC call. */
module WaitGroups {
  import opened StreamProtocol

  class WaitGroup {
    var inner: int  // counter of the embedded sync.WaitGroup, which must never become negative
    var cnt: int

    ghost predicate Valid()
      reads this
    {
      inner == cnt >= 0
    }

    /** sync.WaitGroup.Wait returns exactly when the inner counter is zero. */
    predicate WaitReturns()
      reads this
    {
      inner == 0
    }

    constructor ()
      ensures Valid() && cnt == 0
    {
      inner, cnt := 0, 0;
    }

    method Add(num: int)
      requires Valid() && cnt + num >= 0
      modifies this
      ensures Valid() && cnt == old(cnt) + num
    {
      inner := inner + num;
      cnt := cnt + num;
    }

    /** The step relation's token release is this method's effect, extra calls included. */
    method Done()
      requires Valid()
      modifies this
      ensures Valid() && cnt == WgDone(old(cnt))
    {
      if cnt > 0 {
        inner := inner - 1;
        cnt := cnt - 1;
      }
    }

    method Finish()
      requires Valid()
      modifies this
      ensures Valid() && cnt == 0 && WaitReturns()
    {
      var i := 0;
      while i < cnt
        invariant 0 <= i <= cnt == old(cnt)
        invariant inner == cnt - i
      {
        inner := inner - 1;
        i := i + 1;
      }
      cnt := 0;
    }
  }
}
