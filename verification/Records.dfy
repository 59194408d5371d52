/** Option and Result. */
module Wrappers {
  datatype Option<+T> = None | Some(value: T)

  datatype Result<+T, +E> = Success(value: T) | Failure(error: E)
}

/** Normalised runes, by the class the tokenizers and encoders see.

    NFKC and the Unicode tables are not part of this model: a rune carries its class.  The classes
    are disjoint, so a CJK, word or connector rune is neither white space nor a meta character.
 */
module Runes {
  datatype Rune =
    | Cjk(code: nat)
    | Word(code: nat)
    | Connector(code: nat)
    | Space(code: nat)
    | Meta(code: nat)
    | Other(code: nat)

  type Text = seq<Rune>

  /** The separator the encoders put between tokens. */
  const BLANK: Rune := Space(32)
}

/** The chunk a caller hands over, the row a store keeps, and the search request. */
module Records {
  import opened Wrappers
  import opened Runes

  datatype Chunk = Chunk(
    id: int,
    orgId: int,
    externalId: Option<int>,
    documentId: int,
    sourceId: int,
    chunkIndex: int,
    content: Text,
    pageNumber: Option<int>,
    sectionLabel: Option<Text>)

  datatype Row = Row(
    id: int,
    chunk: Chunk,
    embedderId: string,
    vector: seq<real>,
    lexemeText: Text,
    tokenizerId: string)

  datatype Request = Request(
    orgId: int,
    documentIds: seq<int>,
    sourceIds: seq<int>,
    limit: nat,
    alpha: real)

  /** The isolation condition comes first; an empty filter list means "no filter". */
  predicate InScope(q: Request, r: Row) {
    && r.chunk.orgId == q.orgId
    && (|q.documentIds| == 0 || r.chunk.documentId in q.documentIds)
    && (|q.sourceIds| == 0 || r.chunk.sourceId in q.sourceIds)
  }

  ghost function ScopeOf(t: set<Row>, q: Request): set<Row> {
    set r | r in t && InScope(q, r)
  }

  /** The primary key. */
  ghost predicate DistinctIds(t: set<Row>) {
    forall x, y | x in t && y in t && x.id == y.id :: x == y
  }
}
