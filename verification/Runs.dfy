/** From the arguments of a run to the program that includes its header. */
module Runs {
  import opened Basics
  import opened Program
  import opened Loading
  import opened Meaning
  import opened Theorems
  import opened Generator

  predicate PlainInputs(inputs: seq<Input>) { forall k :: 0 <= k < |inputs| ==> Plain(inputs[k].name) }

  /** All inputs can be opened and none is empty. */
  predicate Complete(inputs: seq<Input>) {
    forall k :: 0 <= k < |inputs| ==> inputs[k].contents.Some? && inputs[k].contents.value != []
  }

  lemma {:induction false} FilesPlain(inputs: seq<Input>)
    requires PlainInputs(inputs) && ReadableTo(inputs, |inputs|)
    ensures PlainNames(FilesOf(inputs)) && (NonEmptyFiles(FilesOf(inputs)) <==> Complete(inputs))
  {
    var fs := FilesOf(inputs);
    forall k | 0 <= k < |fs| ensures Plain(fs[k].name) && (fs[k].contents != [] <==> inputs[k].contents.value != []) {
      assert fs[k] == File(inputs[k].name, inputs[k].contents.value);
    }
    if NonEmptyFiles(fs) {
      forall k | 0 <= k < |inputs| ensures inputs[k].contents.value != [] {
        assert fs[k].contents != [];
      }
    }
  }

  lemma {:induction false} PrefixPlain(inputs: seq<Input>, n: nat)
    requires PlainInputs(inputs) && ReadableTo(inputs, n)
    ensures PlainNames(FilesOf(inputs[..n]))
  {
    FilesPlain(inputs[..n]);
  }

  /**
   * What a run leaves behind is either right or no C++: the header it writes loads exactly
   * when every argument could be opened and none of the files was empty.
   */
  lemma {:induction false} RunLoadsIffComplete(inputs: seq<Input>)
    requires PlainInputs(inputs)
    ensures Load(Output(inputs)).Accepted? <==> Complete(inputs)
    ensures !Complete(inputs) ==> Load(Output(inputs)) == IllFormed
  {
    var n := Readable(inputs);
    if n < |inputs| {
      PrefixPlain(inputs, n);
      AbortedFails(FilesOf(inputs[..n]));
    } else {
      FilesPlain(inputs);
      LoadsIffNonEmpty(FilesOf(inputs));
    }
  }

  /** The bytes behind the first argument of that name. */
  function FirstInput(inputs: seq<Input>, name: string): Option<string> {
    if inputs == [] then None
    else if inputs[0].name == name then inputs[0].contents
    else FirstInput(inputs[1..], name)
  }

  lemma {:induction false} FirstInputIsFirstMatch(inputs: seq<Input>, name: string)
    requires ReadableTo(inputs, |inputs|)
    ensures FirstMatch(FilesOf(inputs), name) == FirstInput(inputs, name)
    decreases |inputs|
  {
    if inputs != [] {
      FirstInputIsFirstMatch(inputs[1..], name);
      assert FilesOf(inputs)[0] == File(inputs[0].name, inputs[0].contents.value);
      assert FilesOf(inputs)[1..] == FilesOf(inputs[1..]);
    }
  }

  /** And when it loads, every lookup answers with the bytes that were on disk. */
  lemma {:induction false} RunIsCorrect(inputs: seq<Input>, name: string, data: string, fuel: nat)
    requires PlainInputs(inputs) && Complete(inputs) && fuel >= |inputs| + 1
    ensures Ask(Output(inputs), name, data, fuel) == Accepted(Result(FirstInput(inputs, name), name, data))
  {
    assert ReadableTo(inputs, |inputs|);
    ReadableIs(inputs, |inputs|);
    FilesPlain(inputs);
    FirstInputIsFirstMatch(inputs, name);
    HeaderIsCorrect(FilesOf(inputs), name, data, fuel);
  }
}
