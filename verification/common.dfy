/** Values shared by the chat endpoint and the chat client: optional values
    and results, chat messages, the concatenation of a sequence of text
    fragments, and what it means for one text to appear inside another. */
module Common {

  datatype Option<+T> = None | Some(value: T)

  datatype Result<+T, +E> = Success(value: T) | Failure(error: E)

  /** The three roles a chat message may carry. */
  datatype Role = System | User | Assistant

  /** One turn of a conversation: `{role, content}`. */
  datatype Message = Message(role: Role, content: string)

  /** The fragments of `parts` joined in order. */
  function Concat(parts: seq<string>): string
  {
    if parts == [] then "" else parts[0] + Concat(parts[1..])
  }

  /** Joining a list extended by one fragment appends that fragment. */
  lemma {:induction false} ConcatSnoc(parts: seq<string>, last: string)
    ensures Concat(parts + [last]) == Concat(parts) + last
  {
    if parts == [] {
      assert parts + [last] == [last];
    } else {
      assert (parts + [last])[0] == parts[0];
      assert (parts + [last])[1..] == parts[1..] + [last];
      ConcatSnoc(parts[1..], last);
    }
  }

  /** Joining two lists one after the other is joining each and concatenating. */
  lemma {:induction false} ConcatAppend(a: seq<string>, b: seq<string>)
    ensures Concat(a + b) == Concat(a) + Concat(b)
  {
    if a == [] {
      assert a + b == b;
    } else {
      assert (a + b)[0] == a[0];
      assert (a + b)[1..] == a[1..] + b;
      ConcatAppend(a[1..], b);
    }
  }

  /** Joining six fragments concatenates them left to right. */
  lemma ConcatSix(a: string, b: string, c: string, d: string, e: string, f: string)
    ensures Concat([a, b, c, d, e, f]) == a + b + c + d + e + f
  {
    ConcatSnoc([a, b, c, d, e], f);
    ConcatSnoc([a, b, c, d], e);
    ConcatSnoc([a, b, c], d);
    ConcatSnoc([a, b], c);
    ConcatSnoc([a], b);
    assert [a, b, c, d, e] + [f] == [a, b, c, d, e, f];
    assert [a, b, c, d] + [e] == [a, b, c, d, e];
    assert [a, b, c] + [d] == [a, b, c, d];
    assert [a, b] + [c] == [a, b, c];
    assert [a] + [b] == [a, b];
    assert Concat([a]) == a + Concat([]);
  }

  /** `needle` appears in `hay` starting at position `k`. */
  predicate At(needle: string, hay: string, k: nat)
  {
    k + |needle| <= |hay| && hay[k..k + |needle|] == needle
  }

  /** `needle` appears somewhere in `hay`. */
  ghost predicate Occurs(needle: string, hay: string)
  {
    exists k: nat :: At(needle, hay, k)
  }

  lemma OccursBetween(before: string, needle: string, after: string)
    ensures Occurs(needle, before + needle + after)
  {
    var hay := before + needle + after;
    assert hay[|before|..|before| + |needle|] == needle;
    assert At(needle, hay, |before|);
  }

  /** A text inside a text inside `c` is inside `c`. */
  lemma OccursTrans(a: string, b: string, c: string)
    requires Occurs(a, b) && Occurs(b, c)
    ensures Occurs(a, c)
  {
    var i: nat :| At(a, b, i);
    var j: nat :| At(b, c, j);
    forall t | 0 <= t < |a|
      ensures c[j + i + t] == a[t]
    {
      assert c[j..j + |b|][i + t] == c[j + i + t];
      assert b[i..i + |a|][t] == b[i + t];
    }
    assert c[j + i..j + i + |a|] == a;
    assert At(a, c, j + i);
  }

  /** Every fragment appears in the text the fragments join to. */
  lemma {:induction false} OccursInConcat(parts: seq<string>, k: nat)
    requires k < |parts|
    ensures Occurs(parts[k], Concat(parts))
  {
    if k == 0 {
      OccursBetween("", parts[0], Concat(parts[1..]));
      assert "" + parts[0] + Concat(parts[1..]) == Concat(parts);
    } else {
      OccursInConcat(parts[1..], k - 1);
      OccursBetween(parts[0], Concat(parts[1..]), "");
      assert parts[0] + Concat(parts[1..]) + "" == Concat(parts);
      OccursTrans(parts[k], Concat(parts[1..]), Concat(parts));
    }
  }
}
