/**
  * The assembly of a streamed reply: the chat turn walks the fragments in delivery order, adds
  * every non-empty chunk text to the reply, and stops at the first fragment that raises (an
  * exception from the stream itself or from reading a chunk's text), keeping what it has.
  */
module Streaming {
  import opened Options

  /** One step of the reply stream: a chunk carrying text, or an exception raised at that point. */
  datatype Fragment = Chunk(text: string) | Raise(message: string)

  /** No fragment of `fs` raises. */
  predicate NoRaise(fs: seq<Fragment>) {
    forall k :: 0 <= k < |fs| ==> fs[k].Chunk?
  }

  /** The reply text the turn builds from `fs`: the non-empty chunk texts up to the first raise. */
  function Assembled(fs: seq<Fragment>): string {
    if fs == [] then ""
    else match fs[0]
      case Raise(_) => ""
      case Chunk(t) => (if t != "" then t else "") + Assembled(fs[1..])
  }

  /** The message of the first fragment that raises, if any. */
  function FirstRaise(fs: seq<Fragment>): (r: Option<string>)
    ensures r.None? <==> NoRaise(fs)
  {
    if fs == [] then None
    else match fs[0]
      case Raise(m) => Some(m)
      case Chunk(_) => FirstRaise(fs[1..])
  }

  /** The fragments the turn actually reads: the longest prefix in which nothing raises. */
  function Delivered(fs: seq<Fragment>): (d: seq<Fragment>)
    ensures d <= fs && NoRaise(d)
    ensures |d| < |fs| ==> fs[|d|].Raise?
  {
    if fs == [] || fs[0].Raise? then []
    else [fs[0]] + Delivered(fs[1..])
  }

  /** The plain concatenation of every chunk text in `fs`, empty ones included. */
  function Joined(fs: seq<Fragment>): string {
    if fs == [] then ""
    else (if fs[0].Chunk? then fs[0].text else "") + Joined(fs[1..])
  }

  /** Appending fragments after a prefix in which nothing raises appends their text. */
  lemma {:induction false} AssembledAppend(a: seq<Fragment>, b: seq<Fragment>)
    requires NoRaise(a)
    ensures Assembled(a + b) == Assembled(a) + Assembled(b)
  {
    if a == [] {
      assert a + b == b;
    } else {
      assert (a + b)[1..] == a[1..] + b;
      AssembledAppend(a[1..], b);
    }
  }

  /** After a raise nothing more is read: the text is what was assembled before it. */
  lemma {:induction false} AssembledStopsAtRaise(a: seq<Fragment>, m: string, b: seq<Fragment>)
    requires NoRaise(a)
    ensures Assembled(a + [Raise(m)] + b) == Assembled(a)
    ensures FirstRaise(a + [Raise(m)] + b) == Some(m)
  {
    if a == [] {
      assert a + [Raise(m)] + b == [Raise(m)] + b;
    } else {
      assert (a + [Raise(m)] + b)[1..] == a[1..] + [Raise(m)] + b;
      AssembledStopsAtRaise(a[1..], m, b);
    }
  }

  /**
    * Skipping empty chunks changes nothing: the assembled reply is exactly the concatenation, in
    * delivery order, of the texts of the fragments read before the first raise.
    */
  lemma {:induction false} AssembledIsJoinedDelivered(fs: seq<Fragment>)
    ensures Assembled(fs) == Joined(Delivered(fs))
  {
    if fs != [] && fs[0].Chunk? {
      AssembledIsJoinedDelivered(fs[1..]);
      assert ([fs[0]] + Delivered(fs[1..]))[1..] == Delivered(fs[1..]);
    }
  }

  /**
    * The `for chunk in response_stream` loop of the chat turn: returns the assembled reply and
    * the message of the exception that ended the stream early, if one did.
    */
  method AssembleStream(fs: seq<Fragment>) returns (full: string, failure: Option<string>)
    ensures full == Assembled(fs) && failure == FirstRaise(fs)
    ensures failure.None? ==> full == Joined(fs)
  {
    full := "";
    var i := 0;
    while i < |fs|
      invariant 0 <= i <= |fs|
      invariant NoRaise(fs[..i])
      invariant full == Assembled(fs[..i])
    {
      match fs[i]
      case Raise(m) =>
        AssembledStopsAtRaise(fs[..i], m, fs[i + 1..]);
        assert fs[..i] + [Raise(m)] + fs[i + 1..] == fs;
        failure := Some(m);
        return;
      case Chunk(t) =>
        if t != "" {
          full := full + t;
        }
        AssembledAppend(fs[..i], [fs[i]]);
        assert fs[..i + 1] == fs[..i] + [fs[i]];
        i := i + 1;
    }
    assert fs[..i] == fs;
    failure := None;
    AssembledIsJoinedDelivered(fs);
    assert Delivered(fs) == fs;
  }
}
