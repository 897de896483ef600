/**
 * What both front ends share about a request: its identifier, drawn with
 * `random.randint(10000000, 99999999)`, and the result of inserting its
 * audit row into the warehouse.
 */
module Requests {

  const MinRequestId: int := 10000000
  const MaxRequestId: int := 99999999

  /** A value `randint` can draw: an eight-digit number. */
  predicate IsRequestId(n: int) {
    MinRequestId <= n <= MaxRequestId
  }

  /** What the warehouse insert does: report a list of errors, or raise. */
  datatype InsertResult = Inserted(errors: seq<string>) | InsertRaised(message: string)
}
