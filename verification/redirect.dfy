/**
 * Redirection of standard output (`split_redirect` in src/lib.rs): the first
 * word that is `>` or `1>` splits the argument list into the operands before
 * it and the single target word after it.
 */
module Redirect {
  import opened Wrappers

  /** The two operators this shell recognises; both overwrite standard output. */
  predicate IsRedirectOperator(w: string) {
    w == ">" || w == "1>"
  }

  /** `p` is the index of the first redirection operator in `args`. */
  predicate IsFirstOperator(args: seq<string>, p: int) {
    && 0 <= p < |args|
    && IsRedirectOperator(args[p])
    && forall j :: 0 <= j < p ==> !IsRedirectOperator(args[j])
  }

  /** Where the first operator is, if any (`Iterator::position`). */
  function FirstOperator(args: seq<string>): (r: Option<nat>)
    ensures r.Some? ==> IsFirstOperator(args, r.value)
    ensures r.None? ==> forall j :: 0 <= j < |args| ==> !IsRedirectOperator(args[j])
  {
    if args == [] then None
    else if IsRedirectOperator(args[0]) then Some(0)
    else
      match FirstOperator(args[1..])
      case None => None
      case Some(p) => Some(p + 1)
  }

  /** The operands a command runs with and the file its output goes to, if any. */
  datatype Split = Split(operands: seq<string>, target: Option<string>)

  function SplitRedirect(args: seq<string>): (r: Split)
    // a target exists exactly when the first operator is not the last word
    ensures r.target.Some? <==> exists p :: IsFirstOperator(args, p) && p + 1 < |args|
    // and then the operands are what precedes it, the target what follows it
    ensures forall p :: IsFirstOperator(args, p) && p + 1 < |args| ==>
      r == Split(args[..p], Some(args[p + 1]))
    // otherwise the list is returned whole
    ensures r.target.None? ==> r.operands == args
    // the operands are always a prefix of the arguments ...
    ensures r.operands <= args
    // ... and, when a target was found, free of operators
    ensures r.target.Some? ==> forall i :: 0 <= i < |r.operands| ==> !IsRedirectOperator(r.operands[i])
  {
    match FirstOperator(args)
    case Some(pos) =>
      if pos + 1 < |args| then Split(args[..pos], Some(args[pos + 1])) else Split(args, None)
    case None => Split(args, None)
  }

  /** Once a target is found, words after it, further operators included, change nothing. */
  lemma OnlyFirstOperatorCounts(args: seq<string>, tail: seq<string>)
    requires SplitRedirect(args).target.Some?
    ensures SplitRedirect(args + tail) == SplitRedirect(args)
  {
    var p := FirstOperator(args).value;
    assert IsFirstOperator(args + tail, p) by {
      assert forall j :: 0 <= j <= p ==> (args + tail)[j] == args[j];
    }
    assert (args + tail)[..p] == args[..p];
  }

  /** A list without any operator is passed through untouched. */
  lemma NoOperatorNoRedirect(args: seq<string>)
    requires forall i :: 0 <= i < |args| ==> !IsRedirectOperator(args[i])
    ensures SplitRedirect(args) == Split(args, None)
  {
  }

  /** `>>` is not an operator here: only the later `>` redirects. */
  lemma AppendIsNotAnOperator()
    ensures SplitRedirect(["x", ">>", "f", ">", "g"]) == Split(["x", ">>", "f"], Some("g"))
  {
    var args := ["x", ">>", "f", ">", "g"];
    assert IsFirstOperator(args, 3);
  }

  /** An operator in the last position is left among the operands. */
  lemma TrailingOperatorIsKept()
    ensures SplitRedirect(["echo", "hi", ">"]) == Split(["echo", "hi", ">"], None)
  {
    var args := ["echo", "hi", ">"];
    assert IsFirstOperator(args, 2);
  }
}
