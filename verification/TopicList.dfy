/** A topic's list of subscriptions as its users see it (thread/topic/Subscription.h:120-161 and
    356-381): the nodes that can be reached from m_head, and whether m_tail is one of them. */
module TopicList {

  datatype TopicList<T(==)> = TopicList(nodes: seq<T>, tailCurrent: bool) {

    /** An empty list is refilled from its head, wherever m_tail is. */
    ghost predicate Ok() { nodes == [] ==> tailCurrent }

    /** A new node is hung on m_tail: behind a tail that has left, it cannot be reached. */
    function Reserved(n: T): TopicList<T> {
      if tailCurrent then TopicList(nodes + [n], true) else this
    }

    /** A node leaves, and "rest" is left; m_tail stays where it is. */
    function Left(n: T, rest: seq<T>): TopicList<T> {
      TopicList(rest, rest == [] || (tailCurrent && nodes != [] && n != nodes[|nodes| - 1]))
    }
  }

  function Empty<T(==)>(): TopicList<T> { TopicList([], true) }
}
