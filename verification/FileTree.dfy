/** A directory tree as a walk meets it.  Children are kept in the order the file system lists them,
    which no result is allowed to depend on. */
module FileTree {
  import opened Options

  datatype Entry =
    | File(digest: string)
    | Dir(readable: bool, children: seq<Child>)
    | Symlink
    | Other

  datatype Child = Child(name: string, entry: Entry)

  /** Names are non-empty, contain neither the separator nor NUL, and are distinct in each directory. */
  ghost predicate WellNamed(kids: seq<Child>)
    decreases kids
  {
    && (forall k | k in kids :: k.name != [] && '/' !in k.name && '\0' !in k.name)
    && (forall i, j | 0 <= i < j < |kids| :: kids[i].name != kids[j].name)
    && (forall k | k in kids && k.entry.Dir? :: WellNamed(k.entry.children))
  }

  lemma WellNamedTail(kids: seq<Child>)
    requires WellNamed(kids) && kids != []
    ensures WellNamed(kids[1..])
  {
    assert forall k | k in kids[1..] :: k in kids;
  }

  // ---- termination measure of an explicit stack -------------------------------------------------------

  function Weight(e: Entry): nat
    decreases e
  {
    match e
    case Dir(_, children) => 1 + Weights(children)
    case _ => 1
  }

  function Weights(kids: seq<Child>): nat
    decreases kids
  {
    if kids == [] then 0 else Weight(kids[0].entry) + Weights(kids[1..])
  }

  // ---- the file at a path -----------------------------------------------------------------------------

  /** The digest of the regular file at `parts`, reached through readable directories only. */
  function FileAt(kids: seq<Child>, parts: seq<string>): Option<string>
    decreases kids
  {
    if kids == [] || parts == [] then None
    else if kids[0].name != parts[0] then FileAt(kids[1..], parts)
    else
      match kids[0].entry
      case File(digest) => if |parts| == 1 then Some(digest) else None
      case Dir(readable, children) => if readable then FileAt(children, parts[1..]) else None
      case _ => None
  }
}
