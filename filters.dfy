/** Core.Filters.CorrectionFilterEventArgs: the record the correction filter hands
    down the pipeline, naming a joint, the point it was seen at and the correction
    to apply to it. `J` stands for the sensor's joint identifier and `P` for a 3D
    point; the model never looks inside either. */
module Filters {

  /** The name every CorrectionFilterEventArgs reports. */
  const CorrectionFilterEventArgsName: string := "CorrectionFilterEventArgs"

  /** The fields have private setters assigned only by the constructor, so a
      value of this datatype is the whole of the object's state for its lifetime. */
  datatype CorrectionFilterEventArgs<J, P> =
    CorrectionFilterEventArgs(jointToCorrect: J, point: P, correction: P)
  {
    /** The Name property: the same constant for every instance, whatever its fields. */
    function Name(): (n: string)
      ensures n == CorrectionFilterEventArgsName
    {
      CorrectionFilterEventArgsName
    }
  }

  /** The name does not depend on the record it is asked of. */
  lemma NameIsConstant<J, P>(a: CorrectionFilterEventArgs<J, P>, b: CorrectionFilterEventArgs<J, P>)
    ensures a.Name() == b.Name() == CorrectionFilterEventArgsName
  {
  }

  /** The constructor: each argument lands unchanged in its own field. */
  function NewCorrectionFilterEventArgs<J, P>(jointToCorrect: J, point: P, correction: P): (r: CorrectionFilterEventArgs<J, P>)
    ensures r.jointToCorrect == jointToCorrect
    ensures r.point == point
    ensures r.correction == correction
  {
    CorrectionFilterEventArgs(jointToCorrect, point, correction)
  }

  /** Reading the three fields back and constructing anew gives the same record:
      the constructor loses nothing and the record holds nothing else. */
  lemma FieldsRebuildRecord<J, P>(args: CorrectionFilterEventArgs<J, P>)
    ensures NewCorrectionFilterEventArgs(args.jointToCorrect, args.point, args.correction) == args
  {
  }

  /** Two records are equal exactly when they were constructed from equal arguments. */
  lemma ConstructionIsInjective<J, P>(j1: J, p1: P, c1: P, j2: J, p2: P, c2: P)
    ensures (NewCorrectionFilterEventArgs(j1, p1, c1) == NewCorrectionFilterEventArgs(j2, p2, c2))
            <==> (j1 == j2 && p1 == p2 && c1 == c2)
  {
  }
}
