/** The command lines the reconciler hands to `gcloud` and `bq`, and what
    the commands return. */
module Command {
  import opened Values

  /** One position in an argument list. Python builds some arguments by
      iterating a set, whose order is not fixed; the model keeps exactly
      what is emitted and leaves that order open.
      - `Word(w)`: the argument `w`.
      - `Joined(prefix, parts)`: the single argument `prefix + ','.join(parts)`,
        the parts in some order.
      - `Shuffled(groups)`: every group, each a run of adjacent arguments, in
        some order; no group at all emits nothing. */
  datatype Token =
    | Word(w: string)
    | Joined(prefix: string, parts: set<string>)
    | Shuffled(groups: set<seq<string>>)

  function Words(ws: seq<string>): (ts: seq<Token>)
    ensures |ts| == |ws| && forall i :: 0 <= i < |ws| ==> ts[i] == Word(ws[i])
  {
    if ws == [] then [] else [Word(ws[0])] + Words(ws[1..])
  }

  datatype Tool = Gcloud | Bq

  /** One invocation of a command-line tool. */
  datatype Request = Request(tool: Tool, args: seq<Token>)

  /** What a command returns: a failure (non-zero exit status), an empty
      standard output, or the document its standard output parses to. */
  datatype Reply = Failed(stderr: string) | Empty | Output(doc: Value)
}
