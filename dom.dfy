/** The small part of the browser's document model the dismissal rules look at:
    node identity, nullable references and `Node.contains`. */
module Dom {

  /** Identity of a DOM node; nothing else about a node matters here. */
  type Node = nat

  /** A JavaScript value that may be `null` (a ref's `current`, an event target). */
  datatype Nullable<T> = Null | NonNull(value: T)

  /** An element, described by itself and the nodes below it. */
  datatype Element = Element(self: Node, descendants: set<Node>)

  /** `el.contains(n)`: true for the element itself and for every node below it. */
  predicate Contains(el: Element, n: Node)
  {
    n == el.self || n in el.descendants
  }
}
