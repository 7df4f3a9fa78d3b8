/** The event grammar of a YAML stream, as an acceptor with a stack of open nodes. */
module YamlEvents {
  datatype Event =
    | StreamStart | StreamEnd
    | DocumentStart | DocumentEnd
    | Alias | Scalar
    | SequenceStart(flowSeq: bool) | SequenceEnd
    | MappingStart(flowMap: bool) | MappingEnd

  /** What is open: a document without or with its root node, a sequence, a mapping that expects a
      key or a value next. */
  datatype Open = Root | RootDone | Item | Key | Value

  datatype Progress = Before | Between | Inside(open: seq<Open>) | After

  datatype Verdict = Accepted(to: Progress) | Rejected

  /** The node expected has begun. */
  function Filled(o: Open): Open {
    match o
    case Root => RootDone
    case RootDone => RootDone
    case Item => Item
    case Key => Value
    case Value => Key
  }

  function Node(open: seq<Open>, inner: seq<Open>): Verdict {
    var n := |open|;
    if n > 0 && open[n - 1] != RootDone then Accepted(Inside(open[..n - 1] + [Filled(open[n - 1])] + inner)) else Rejected
  }

  function Close(open: seq<Open>, o: Open): Verdict {
    var n := |open|;
    if n > 0 && open[n - 1] == o then Accepted(Inside(open[..n - 1])) else Rejected
  }

  function Accept(g: Progress, e: Event): Verdict {
    match g
    case Before => if e.StreamStart? then Accepted(Between) else Rejected
    case Between =>
      if e.DocumentStart? then Accepted(Inside([Root])) else if e.StreamEnd? then Accepted(After) else Rejected
    case After => Rejected
    case Inside(open) =>
      match e
      case DocumentEnd => if open == [RootDone] then Accepted(Between) else Rejected
      case Alias => Node(open, [])
      case Scalar => Node(open, [])
      case SequenceStart(_) => Node(open, [Item])
      case MappingStart(_) => Node(open, [Key])
      case SequenceEnd => Close(open, Item)
      case MappingEnd => Close(open, Key)
      case _ => Rejected
  }

  function AcceptAll(g: Progress, es: seq<Event>): Verdict
    decreases |es|
  {
    if es == [] then Accepted(g)
    else
      match Accept(g, es[0])
      case Accepted(h) => AcceptAll(h, es[1..])
      case Rejected => Rejected
  }

  lemma {:induction false} AcceptSnoc(g: Progress, es: seq<Event>, e: Event)
    ensures AcceptAll(g, es + [e])
         == match AcceptAll(g, es) { case Accepted(h) => Accept(h, e) case Rejected => Rejected }
    decreases |es|
  {
    hide Accept;
    var all := es + [e];
    if es == [] {
      assert all[1..] == [];
    } else {
      assert all[1..] == es[1..] + [e];
      if Accept(g, es[0]).Accepted? { AcceptSnoc(Accept(g, es[0]).to, es[1..], e); }
    }
  }
}
