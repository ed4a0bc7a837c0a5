/** The loop in `main` that assembles the program text line by line: a line
    that assembles appends its word to the program, a line that fails is
    reported on the error stream and adds nothing. */
module Batch {
  import opened Isa
  import opened Assembler

  /** One line of text together with what `assemble` made of it. */
  datatype Outcome = Outcome(line: string, result: Result<Word, AsmError>)

  /** A line the assembler rejected, with the error it reported. */
  datatype Rejection = Rejection(line: string, error: AsmError)

  /** Every line supplies the operands its mnemonic calls for. */
  predicate AllWellFormed(lines: seq<string>) {
    forall i :: 0 <= i < |lines| ==> OperandsWellFormed(lines[i])
  }

  /** What `assemble` makes of each line, in order. */
  function Outcomes(lines: seq<string>): (os: seq<Outcome>)
    requires AllWellFormed(lines)
    ensures |os| == |lines|
    ensures forall i :: 0 <= i < |lines| ==> os[i] == Outcome(lines[i], Assemble(lines[i]))
  {
    seq(|lines|, i requires 0 <= i < |lines| && AllWellFormed(lines) => Outcome(lines[i], Assemble(lines[i])))
  }

  /** The words of the outcomes that succeeded, in order. */
  function Words(os: seq<Outcome>): (program: seq<Word>)
    ensures |program| <= |os|
    decreases |os|
  {
    if os == [] then []
    else
      var last := os[|os| - 1];
      if last.result.Success? then Words(os[..|os| - 1]) + [last.result.value]
      else Words(os[..|os| - 1])
  }

  /** The reports of the outcomes that failed, in order. */
  function Rejections(os: seq<Outcome>): (rejected: seq<Rejection>)
    ensures |rejected| <= |os|
    decreases |os|
  {
    if os == [] then []
    else
      var last := os[|os| - 1];
      if last.result.Success? then Rejections(os[..|os| - 1])
      else Rejections(os[..|os| - 1]) + [Rejection(last.line, last.result.error)]
  }

  /** The program the loop builds from the text: one word for every line
      that was not rejected. */
  function AssembleAll(lines: seq<string>): (program: seq<Word>)
    requires AllWellFormed(lines)
    ensures |program| == |lines| - |Rejections(Outcomes(lines))|
  {
    WordsAndReportsPartition(Outcomes(lines));
    Words(Outcomes(lines))
  }

  /** The loop itself: `program.push_back(assemble(line))` inside a `try`,
      whose `catch` reports the line and moves on. */
  method AssembleProgram(lines: seq<string>) returns (program: seq<Word>, rejected: seq<Rejection>)
    requires AllWellFormed(lines)
    ensures program == Words(Outcomes(lines))
    ensures rejected == Rejections(Outcomes(lines))
  {
    ghost var os := Outcomes(lines);
    program, rejected := [], [];
    for i := 0 to |lines|
      invariant program == Words(os[..i])
      invariant rejected == Rejections(os[..i])
    {
      var r := Assemble(lines[i]);
      WordsStep(os, i);
      match r {
        case Success(w) =>
          program := program + [w];
        case Failure(e) =>
          rejected := rejected + [Rejection(lines[i], e)];
      }
    }
    assert os[..|lines|] == os;
  }

  /** One more outcome adds its word to the program or its report to the
      rejections, never both. */
  lemma WordsStep(os: seq<Outcome>, i: nat)
    requires i < |os|
    ensures os[i].result.Success? ==> Words(os[..i + 1]) == Words(os[..i]) + [os[i].result.value]
    ensures os[i].result.Success? ==> Rejections(os[..i + 1]) == Rejections(os[..i])
    ensures os[i].result.Failure? ==> Words(os[..i + 1]) == Words(os[..i])
    ensures os[i].result.Failure? ==> Rejections(os[..i + 1]) == Rejections(os[..i]) + [Rejection(os[i].line, os[i].result.error)]
  {
    assert os[..i + 1][..i] == os[..i];
  }

  /** One outcome after a run of outcomes. */
  lemma WordsSnoc(os: seq<Outcome>, o: Outcome)
    ensures o.result.Success? ==> Words(os + [o]) == Words(os) + [o.result.value]
    ensures o.result.Success? ==> Rejections(os + [o]) == Rejections(os)
    ensures o.result.Failure? ==> Words(os + [o]) == Words(os)
    ensures o.result.Failure? ==> Rejections(os + [o]) == Rejections(os) + [Rejection(o.line, o.result.error)]
  {
    assert (os + [o])[..|os|] == os;
  }

  /** Outcomes of a slice of the text are that slice of the outcomes. */
  lemma OutcomesSlice(lines: seq<string>, i: nat, j: nat)
    requires AllWellFormed(lines) && i <= j <= |lines|
    ensures AllWellFormed(lines[i..j])
    ensures Outcomes(lines[i..j]) == Outcomes(lines)[i..j]
  {
    assert forall t :: 0 <= t < j - i ==> lines[i..j][t] == lines[i + t];
  }

  /** Outcomes of two pieces of text one after the other. */
  lemma OutcomesAppend(a: seq<string>, b: seq<string>)
    requires AllWellFormed(a) && AllWellFormed(b)
    ensures AllWellFormed(a + b)
    ensures Outcomes(a + b) == Outcomes(a) + Outcomes(b)
  {
    assert forall i :: 0 <= i < |a + b| ==> (a + b)[i] == if i < |a| then a[i] else b[i - |a|];
  }

  /** Two runs of outcomes one after the other give the two programs one
      after the other, and the two reports likewise. */
  lemma {:induction false} WordsAppend(a: seq<Outcome>, b: seq<Outcome>)
    ensures Words(a + b) == Words(a) + Words(b)
    ensures Rejections(a + b) == Rejections(a) + Rejections(b)
    decreases |b|
  {
    if b == [] {
      assert a + b == a;
    } else {
      var b' := b[..|b| - 1];
      assert (a + b)[..|a + b| - 1] == a + b';
      assert (a + b)[|a + b| - 1] == b[|b| - 1];
      WordsAppend(a, b');
    }
  }

  /** Every line either adds a word or a report, never both. */
  lemma {:induction false} WordsAndReportsPartition(os: seq<Outcome>)
    ensures |Words(os)| + |Rejections(os)| == |os|
    decreases |os|
  {
    if os != [] {
      WordsAndReportsPartition(os[..|os| - 1]);
    }
  }

  /** Every outcome reaches the program exactly when none is a failure. */
  lemma {:induction false} NoLossIffNoFailure(os: seq<Outcome>)
    ensures |Words(os)| == |os| <==> Rejections(os) == []
    ensures Rejections(os) == [] <==> forall i :: 0 <= i < |os| ==> os[i].result.Success?
    decreases |os|
  {
    WordsAndReportsPartition(os);
    if os != [] {
      var prefix := os[..|os| - 1];
      NoLossIffNoFailure(prefix);
      if Rejections(os) == [] {
        forall i | 0 <= i < |os|
          ensures os[i].result.Success?
        {
          if i < |os| - 1 {
            assert os[i] == prefix[i];
          }
        }
      }
    }
  }

  /** The whole text reaches the program, line for line, exactly when every
      mnemonic in it is a table key. */
  lemma NoLossIffAllKnown(lines: seq<string>)
    requires AllWellFormed(lines)
    ensures |AssembleAll(lines)| == |lines| <==> forall i :: 0 <= i < |lines| ==> MnemonicOf(lines[i]) in OpcodeMap
  {
    var os := Outcomes(lines);
    NoLossIffNoFailure(os);
    assert forall i :: 0 <= i < |lines| ==> (os[i].result.Success? <==> MnemonicOf(lines[i]) in OpcodeMap);
  }

  /** A line that assembles has its word at address `k` minus the number of
      lines rejected before it, `k` being the number of lines before it. */
  lemma SuccessLandsAtAddress(pre: seq<Outcome>, x: Outcome, post: seq<Outcome>)
    requires x.result.Success?
    ensures |pre| - |Rejections(pre)| < |Words(pre + [x] + post)|
    ensures Words(pre + [x] + post)[|pre| - |Rejections(pre)|] == x.result.value
  {
    WordsAppend(pre + [x], post);
    WordsSnoc(pre, x);
    WordsAndReportsPartition(pre);
  }

  /** A rejected line contributes nothing to the program, so every later
      word sits one address lower than it would if the line had assembled;
      its report sits between those of the lines around it. */
  lemma FailureIsSkipped(pre: seq<Outcome>, x: Outcome, post: seq<Outcome>)
    requires x.result.Failure?
    ensures Words(pre + [x] + post) == Words(pre + post)
    ensures Rejections(pre + [x] + post) == Rejections(pre) + [Rejection(x.line, x.result.error)] + Rejections(post)
  {
    WordsAppend(pre + [x], post);
    WordsSnoc(pre, x);
    WordsAppend(pre, post);
  }

  /** The outcomes of a text around its line `k`. */
  lemma OutcomesAround(lines: seq<string>, k: nat)
    requires AllWellFormed(lines) && k < |lines|
    ensures AllWellFormed(lines[..k]) && AllWellFormed(lines[k + 1..])
    ensures Outcomes(lines) == Outcomes(lines[..k]) + [Outcome(lines[k], Assemble(lines[k]))] + Outcomes(lines[k + 1..])
  {
    var os := Outcomes(lines);
    OutcomesSlice(lines, 0, k);
    OutcomesSlice(lines, k + 1, |lines|);
    assert lines[0..k] == lines[..k] && lines[k + 1..|lines|] == lines[k + 1..];
    assert os == os[0..k] + [os[k]] + os[k + 1..|lines|];
  }

  /** Stated on lines: a line that assembles puts its word at its index minus
      the number of lines rejected before it. */
  lemma AssembledLineAddress(lines: seq<string>, k: nat)
    requires AllWellFormed(lines) && k < |lines| && Assemble(lines[k]).Success?
    ensures AllWellFormed(lines[..k])
    ensures k - |Rejections(Outcomes(lines[..k]))| < |AssembleAll(lines)|
    ensures AssembleAll(lines)[k - |Rejections(Outcomes(lines[..k]))|] == Assemble(lines[k]).value
  {
    OutcomesAround(lines, k);
    SuccessLandsAtAddress(Outcomes(lines[..k]), Outcome(lines[k], Assemble(lines[k])), Outcomes(lines[k + 1..]));
  }

  /** Stated on lines: the program is the one the text without a rejected
      line would give. */
  lemma RejectedLineDropped(lines: seq<string>, k: nat)
    requires AllWellFormed(lines) && k < |lines| && Assemble(lines[k]).Failure?
    ensures AllWellFormed(lines[..k] + lines[k + 1..])
    ensures AssembleAll(lines) == AssembleAll(lines[..k] + lines[k + 1..])
  {
    OutcomesAround(lines, k);
    FailureIsSkipped(Outcomes(lines[..k]), Outcome(lines[k], Assemble(lines[k])), Outcomes(lines[k + 1..]));
    OutcomesAppend(lines[..k], lines[k + 1..]);
  }
}
