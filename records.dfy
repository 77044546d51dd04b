/** The framing of the output queue: every frame is stored as one record, a
    length byte followed by that many frame bytes, so frame boundaries survive
    the byte queue. */
module Records {
  import opened YsfDefines

  ghost predicate Framable(rs: seq<seq<byte>>)
  {
    forall i :: 0 <= i < |rs| ==> |rs[i]| < 256
  }

  ghost predicate AllOfLength(rs: seq<seq<byte>>, n: nat)
  {
    forall i :: 0 <= i < |rs| ==> |rs[i]| == n
  }

  /** One record: the length byte, then the bytes. */
  function Frame(r: seq<byte>): seq<byte>
    requires |r| < 256
  {
    [|r| as byte] + r
  }

  /** The bytes a queue holds after the records rs were pushed in order. */
  function Flatten(rs: seq<seq<byte>>): seq<byte>
    requires Framable(rs)
  {
    if rs == [] then [] else Frame(rs[0]) + Flatten(rs[1..])
  }

  /** Splits queue bytes into records, oldest first; None when the bytes
      end inside a record. Only bytes that are records in sequence parse. */
  function Parse(q: seq<byte>): (rs: Option<seq<seq<byte>>>)
    ensures rs.Some? ==> Framable(rs.value) && Flatten(rs.value) == q
    decreases |q|
  {
    if q == [] then Some([])
    else
      var n := q[0] as int;
      if |q| < 1 + n then None
      else
        match Parse(q[1 + n..])
        case None => None
        case Some(rest) =>
          Some([q[1..1 + n]] + rest)
  }

  /** Records come back out of the bytes exactly as they were put in. */
  lemma {:induction false} ParseFlatten(rs: seq<seq<byte>>)
    requires Framable(rs)
    ensures Parse(Flatten(rs)) == Some(rs)
  {
    if rs != [] {
      var q := Flatten(rs);
      var n := |rs[0]|;
      assert q == [n as byte] + rs[0] + Flatten(rs[1..]);
      assert q[0] as int == n;
      assert q[1..1 + n] == rs[0];
      assert q[1 + n..] == Flatten(rs[1..]);
      ParseFlatten(rs[1..]);
      assert [rs[0]] + rs[1..] == rs;
    }
  }

  lemma {:induction false} FlattenAppend(rs: seq<seq<byte>>, r: seq<byte>)
    requires Framable(rs) && |r| < 256
    ensures Framable(rs + [r])
    ensures Flatten(rs + [r]) == Flatten(rs) + Frame(r)
  {
    if rs == [] {
      assert rs + [r] == [r];
    } else {
      assert (rs + [r])[1..] == rs[1..] + [r];
      FlattenAppend(rs[1..], r);
    }
  }

  /** Pushing one record onto well-framed bytes appends it to the records. */
  lemma ParsePush(q: seq<byte>, r: seq<byte>)
    requires Parse(q).Some? && |r| < 256
    ensures Parse(q + Frame(r)) == Some(Parse(q).value + [r])
  {
    var rs := Parse(q).value;
    FlattenAppend(rs, r);
    ParseFlatten(rs + [r]);
  }

  /** The bytes q hold exactly the records rs, each n bytes long. */
  ghost predicate Holds(q: seq<byte>, rs: seq<seq<byte>>, n: nat)
  {
    Framable(rs) && AllOfLength(rs, n) && q == Flatten(rs)
  }

  /** Pushing a record of the common length keeps the correspondence. */
  lemma HoldsPush(q: seq<byte>, rs: seq<seq<byte>>, r: seq<byte>, n: nat)
    requires Holds(q, rs, n) && |r| == n < 256
    ensures Holds(q + Frame(r), rs + [r], n)
  {
    FlattenAppend(rs, r);
  }

  /** Non-empty queue bytes start with the oldest record: its length byte,
      then its bytes; what follows holds the remaining records. */
  lemma HoldsPop(q: seq<byte>, rs: seq<seq<byte>>, n: nat)
    requires Holds(q, rs, n) && q != []
    ensures rs != [] && 1 + n <= |q| && q[0] as int == n && q[1..1 + n] == rs[0]
    ensures Holds(q[1 + n..], rs[1..], n)
  {
  }
}
