/** Language-neutral flow events: the nested tree every front end emits. */
module FlowEvents {
  import opened Prelude

  datatype Span = Span(file: nat, start: nat, end: nat)

  /** Compiler facts that are carried along and never inspected here. */
  type Detail = seq<string>

  datatype LoopControlTarget = Label(loop: string) | Levels(levels: nat)

  datatype FlowEvent =
    | Call(span: Span, name: string, receiver: Option<string>, receiverTypes: seq<string>,
           callKind: string, args: seq<Detail>)
    | Branch(span: Span, condition: Option<string>,
             thenEvents: seq<FlowEvent>, elseEvents: seq<FlowEvent>)
    | Loop(span: Span, loopKind: string, loopLabel: Option<string>,
           conditionEvents: seq<FlowEvent>, updateEvents: seq<FlowEvent>, loopBody: seq<FlowEvent>)
    | Assign(span: Span, target: string, sourceName: Option<string>, sourceCall: Option<string>,
             sourceCallArgs: seq<string>, sourceNames: seq<string>,
             declaresNewBinding: bool, valueKind: Option<string>)
    | AggregateAssign(span: Span, aggregateTarget: string, typeName: Option<string>, flow: Detail)
    | Return(span: Span, returnKind: Option<string>, text: Option<string>, value: Option<string>,
             flow: Detail)
    | Throw(span: Span, value: Option<string>, thrownType: Option<string>)
    | Try(span: Span, tryBody: seq<FlowEvent>, catchEvents: seq<FlowEvent>,
          finallyEvents: seq<FlowEvent>, catchParam: Option<string>, catchTypes: seq<string>,
          catchArms: seq<Detail>)
    | Break(span: Span, control: Option<LoopControlTarget>)
    | Continue(span: Span, control: Option<LoopControlTarget>)
    | Yield(span: Span, text: Option<string>, flow: Detail)
    | Await(span: Span, value: Option<string>)
    | Defer(span: Span, body: seq<FlowEvent>)
    | Using(span: Span, body: seq<FlowEvent>)
    | Lifecycle(span: Span, name: string, transition: string)
}
