/** The query trees that the nQL parser builds and the executor runs. */
module NqlAst {
  import opened Values
  import opened Aggregation

  datatype Correlate = Correlate(left: FilterNode, right: FilterNode, withinMs: nat)

  datatype Query =
    | FilterQuery(filter: FilterNode)
    | CorrelateQuery(correlate: Correlate)
    | AggregateQuery(aggregate: Aggregate)
    | ShowQuery(selectAll: bool, fields: seq<string>, where: Option<FilterNode>)
    | PipelineQuery(stages: seq<Query>)
}
