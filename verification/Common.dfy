/** Failure types and small facts about sequences that several components share. */
module Common {

  datatype Option<+T> = None | Some(value: T)

  datatype Result<+T> = Ok(value: T) | Err

  function Max(a: int, b: int): int {
    if a < b then b else a
  }

  /** No string occurs twice. */
  ghost predicate Distinct(ss: seq<string>) {
    forall i, j :: 0 <= i < j < |ss| ==> ss[i] != ss[j]
  }

  /** The multiset of f-images of a sequence. */
  function Image<A, B>(f: A -> B, s: seq<A>): multiset<B> {
    if s == [] then multiset{} else Image(f, s[..|s| - 1]) + multiset{f(s[|s| - 1])}
  }

  lemma {:induction false} ImageConcat<A, B>(f: A -> B, s: seq<A>, t: seq<A>)
    ensures Image(f, s + t) == Image(f, s) + Image(f, t)
  {
    if t == [] {
      assert s + t == s;
    } else {
      assert (s + t)[..|s + t| - 1] == s + t[..|t| - 1];
      ImageConcat(f, s, t[..|t| - 1]);
    }
  }

  /** Removing position k from a sequence removes one copy of its element. */
  lemma RemoveAt<A>(s: seq<A>, k: nat)
    requires k < |s|
    ensures s == s[..k] + [s[k]] + s[k + 1..]
    ensures multiset(s) == multiset(s[..k] + s[k + 1..]) + multiset{s[k]}
  {
    assert s == s[..k] + [s[k]] + s[k + 1..];
  }

  lemma ImageSnoc<A, B>(f: A -> B, s: seq<A>, x: A)
    ensures Image(f, s + [x]) == Image(f, s) + multiset{f(x)}
  {
    assert (s + [x])[..|s|] == s;
  }

  lemma Swap<A>(a: multiset<A>, b: multiset<A>, c: multiset<A>)
    ensures a + b + c == a + c + b
  {
  }

  /** Taking out position k takes one copy of its image out. */
  lemma ImageRemove<A, B>(f: A -> B, s: seq<A>, k: nat)
    requires k < |s|
    ensures Image(f, s) == Image(f, s[..k] + s[k + 1..]) + multiset{f(s[k])}
  {
    var front, back := s[..k], s[k + 1..];
    assert s == front + [s[k]] + back;
    ImageConcat(f, front + [s[k]], back);
    ImageSnoc(f, front, s[k]);
    ImageConcat(f, front, back);
    Swap(Image(f, front), multiset{f(s[k])}, Image(f, back));
  }

  lemma DropCommon<A>(a: multiset<A>, b: multiset<A>, x: A)
    requires a + multiset{x} <= b + multiset{x}
    ensures a <= b
  {
    assert (a + multiset{x}) - multiset{x} == a;
    assert (b + multiset{x}) - multiset{x} == b;
  }

  /** The image depends on the elements only: fewer elements have fewer images, the same elements the same. */
  lemma {:induction false} ImageMonotone<A, B>(f: A -> B, s: seq<A>, t: seq<A>)
    requires multiset(s) <= multiset(t)
    ensures Image(f, s) <= Image(f, t)
  {
    if s != [] {
      var n := |s| - 1;
      assert s == s[..n] + [s[n]];
      assert s[n] in multiset(s);
      assert s[n] in t;
      var k: nat :| k < |t| && t[k] == s[n];
      RemoveAt(t, k);
      ImageRemove(f, t, k);
      DropCommon(multiset(s[..n]), multiset(t[..k] + t[k + 1..]), s[n]);
      ImageMonotone(f, s[..n], t[..k] + t[k + 1..]);
    }
  }

  lemma ImagePermutes<A, B>(f: A -> B, s: seq<A>, t: seq<A>)
    requires multiset(s) == multiset(t)
    ensures Image(f, s) == Image(f, t)
  {
    ImageMonotone(f, s, t);
    ImageMonotone(f, t, s);
  }

  /** Pointwise equal images. */
  lemma {:induction false} ImagePointwise<A, B, C>(f: A -> C, s: seq<A>, g: B -> C, t: seq<B>)
    requires |s| == |t| && forall i :: 0 <= i < |s| ==> f(s[i]) == g(t[i])
    ensures Image(f, s) == Image(g, t)
  {
    if s != [] {
      ImagePointwise(f, s[..|s| - 1], g, t[..|t| - 1]);
    }
  }
}
