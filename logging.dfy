/** The string builders of log.h: `PreviewVector`, which shows a vector
    whole when it is short and its first and last `n` elements otherwise,
    and `ToStringStream`, which streams its arguments one after another. */
module Logging {

  import opened Text

  /** Each element converted and followed by one space, in order. */
  function Rendered<T>(items: seq<T>, convert: T -> string): string {
    if items == [] then "" else Rendered(items[..|items| - 1], convert) + convert(items[|items| - 1]) + " "
  }

  /** The elements `PreviewVector` converts. */
  function PreviewShown<T>(vec: seq<T>, n: nat): seq<T> {
    if |vec| <= 2 * n then vec else vec[..n] + vec[|vec| - n..]
  }

  /** The text `PreviewVector(vec, n, convert)` returns. */
  function PreviewText<T>(vec: seq<T>, n: nat, convert: T -> string): string {
    if |vec| <= 2 * n then Rendered(vec, convert)
    else Rendered(vec[..n], convert) + "... " + Rendered(vec[|vec| - n..], convert)
  }

  /** The three streaming loops of `PreviewVector`. */
  method PreviewVector<T>(vec: seq<T>, n: nat, convert: T -> string) returns (s: string)
    ensures s == PreviewText(vec, n, convert)
  {
    s := "";
    if |vec| <= 2 * n {
      for i := 0 to |vec|
        invariant s == Rendered(vec[..i], convert)
      {
        assert vec[..i + 1][..i] == vec[..i];
        s := s + convert(vec[i]) + " ";
      }
      assert vec[..|vec|] == vec;
    } else {
      for i := 0 to n
        invariant s == Rendered(vec[..i], convert)
      {
        assert vec[..i + 1][..i] == vec[..i];
        s := s + convert(vec[i]) + " ";
      }
      s := s + "... ";
      ghost var head := s;
      for i := |vec| - n to |vec|
        invariant s == head + Rendered(vec[|vec| - n..i], convert)
      {
        assert vec[|vec| - n..i + 1][..i - (|vec| - n)] == vec[|vec| - n..i];
        s := s + convert(vec[i]) + " ";
      }
      assert vec[|vec| - n..|vec|] == vec[|vec| - n..];
    }
  }

  /** One argument of `ToStringStream`, as `operator<<` renders it. */
  datatype StreamArg = StrArg(str: string) | IntArg(i: int) | CharArg(c: char) | BoolArg(b: bool)

  /** `ss << x` with the stream's default flags: a bool prints as 1 or 0. */
  function Render(a: StreamArg): string {
    match a
    case StrArg(str) => str
    case IntArg(i) => IntToDecimal(i)
    case CharArg(c) => [c]
    case BoolArg(b) => if b then "1" else "0"
  }

  /** How many elements `PreviewVector` shows at each end when the caller
      gives no count. */
  const DefaultPreviewCount: nat := 5

  /** `PreviewVector(vec)` with both defaults: five elements at each end,
      each element streamed with `ss << val`. A vector of at most ten
      elements is shown whole. */
  method PreviewVectorDefault(vec: seq<StreamArg>) returns (s: string)
    ensures s == PreviewText(vec, DefaultPreviewCount, Render)
    ensures |vec| <= 2 * DefaultPreviewCount ==> s == Rendered(vec, Render)
  {
    s := PreviewVector(vec, DefaultPreviewCount, Render);
    if |vec| <= 2 * DefaultPreviewCount {
      PreviewShortShowsAll(vec, DefaultPreviewCount, Render);
    }
  }

  function Concatenated(args: seq<StreamArg>): string {
    if args == [] then "" else Concatenated(args[..|args| - 1]) + Render(args[|args| - 1])
  }

  /** `ToStringStream(args...)`: each argument streamed into `ss` in turn. */
  method ToStringStream(args: seq<StreamArg>) returns (s: string)
    ensures s == Concatenated(args)
  {
    s := "";
    for i := 0 to |args|
      invariant s == Concatenated(args[..i])
    {
      assert args[..i + 1][..i] == args[..i];
      s := s + Render(args[i]);
    }
    assert args[..|args|] == args;
  }

  // ---------------------------------------------------------------------
  // Properties

  lemma {:induction false} RenderedAppend<T>(a: seq<T>, b: seq<T>, convert: T -> string)
    ensures Rendered(a + b, convert) == Rendered(a, convert) + Rendered(b, convert)
  {
    if b != [] {
      var b' := b[..|b| - 1];
      assert (a + b)[..|a + b| - 1] == a + b';
      RenderedAppend(a, b', convert);
    } else {
      assert a + b == a;
    }
  }

  /** A vector of at most 2n elements is shown whole (an empty one as ""). */
  lemma PreviewShortShowsAll<T>(vec: seq<T>, n: nat, convert: T -> string)
    requires |vec| <= 2 * n
    ensures PreviewText(vec, n, convert) == Rendered(vec, convert)
    ensures vec == [] ==> PreviewText(vec, n, convert) == ""
  {
  }

  /** Exactly min(|vec|, 2n) elements are converted: all of a short vector,
      else the first n then the last n, in their original order. */
  lemma PreviewShownSelection<T>(vec: seq<T>, n: nat)
    ensures |PreviewShown(vec, n)| == if |vec| <= 2 * n then |vec| else 2 * n
    ensures |vec| > 2 * n ==>
      (forall i :: 0 <= i < n ==> PreviewShown(vec, n)[i] == vec[i]) &&
      (forall i :: n <= i < 2 * n ==> PreviewShown(vec, n)[i] == vec[|vec| - 2 * n + i])
  {
  }

  /** A long vector renders its shown elements with a "... " between the two halves. */
  lemma PreviewLongText<T>(vec: seq<T>, n: nat, convert: T -> string)
    requires |vec| > 2 * n
    ensures var shown := PreviewShown(vec, n);
            PreviewText(vec, n, convert) == Rendered(shown[..n], convert) + "... " + Rendered(shown[n..], convert)
  {
    var shown := PreviewShown(vec, n);
    assert shown[..n] == vec[..n];
    assert shown[n..] == vec[|vec| - n..];
  }

  lemma {:induction false} ConcatenatedAppend(a: seq<StreamArg>, b: seq<StreamArg>)
    ensures Concatenated(a + b) == Concatenated(a) + Concatenated(b)
  {
    if b != [] {
      var b' := b[..|b| - 1];
      assert (a + b)[..|a + b| - 1] == a + b';
      ConcatenatedAppend(a, b');
    } else {
      assert a + b == a;
    }
  }

  lemma ConcatenatedSplit(args: seq<StreamArg>, k: nat)
    requires k <= |args|
    ensures Concatenated(args) == Concatenated(args[..k]) + Concatenated(args[k..])
  {
    assert args == args[..k] + args[k..];
    ConcatenatedAppend(args[..k], args[k..]);
  }

  lemma ConcatenatedStep(args: seq<StreamArg>, i: nat)
    requires i < |args|
    ensures Concatenated(args[..i + 1]) == Concatenated(args[..i]) + Render(args[i])
  {
    assert args[..i + 1][..i] == args[..i];
  }

  /** Argument i's rendering sits between the renderings of the arguments
      before it and those after it. */
  lemma ToStringStreamOrder(args: seq<StreamArg>, i: nat)
    requires i < |args|
    ensures Concatenated(args) == Concatenated(args[..i]) + Render(args[i]) + Concatenated(args[i + 1..])
  {
    ConcatenatedSplit(args, i + 1);
    ConcatenatedStep(args, i);
  }
}
