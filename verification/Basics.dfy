/** Types shared by the generator and by the reader of the header it prints. */
module Basics {

  datatype Option<+T> = None | Some(value: T) {
    predicate IsFailure() { None? }
    function PropagateFailure<U>(): Option<U> requires None? { None }
    function Extract(): T requires Some? { value }
  }

  /** What a phase of translation makes of a text: the text may not be C++, or C++ that is not modelled. */
  datatype Verdict<+T> = Accepted(value: T) | IllFormed | NotModelled {
    predicate IsFailure() { !Accepted? }
    function PropagateFailure<U>(): Verdict<U> requires !Accepted? { if IllFormed? then IllFormed else NotModelled }
    function Extract(): T requires Accepted? { value }
  }

  /** The largest value of the generator's `int` counters. */
  const INT_MAX := 0x7FFF_FFFF

  /** One byte of a file or of a `std::string`. */
  type Byte = c: char | c as int < 256

  /** What `fgetc` delivers before end of file; its length fits the `int` that counts it. */
  type Contents = s: seq<Byte> | |s| <= INT_MAX

  /** An entry of `argv`: bytes without the terminating zero. */
  type CString = s: seq<Byte> | forall i :: 0 <= i < |s| ==> s[i] != '\0'

  datatype File = File(name: CString, contents: Contents)

  /** Characters a string literal holds as they stand. */
  predicate Plain(v: string) {
    forall i :: 0 <= i < |v| ==> v[i] != '"' && v[i] != '\\' && v[i] != '\n'
  }

  // ----- lists of files

  predicate PlainNames(fs: seq<File>) { forall i :: 0 <= i < |fs| ==> Plain(fs[i].name) }

  predicate NoQuotes(fs: seq<File>) { forall i :: 0 <= i < |fs| ==> '"' !in fs[i].name }

  predicate NonEmptyFiles(fs: seq<File>) { forall i :: 0 <= i < |fs| ==> fs[i].contents != [] }

  // ----- concatenation

  lemma Assoc(a: string, b: string, c: string)
    ensures a + (b + c) == a + b + c
  {
  }

  lemma Assoc4(a: string, b: string, c: string, d: string)
    ensures a + b + c + d == a + (b + (c + d))
  {
  }
}
