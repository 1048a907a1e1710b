/** The notes of a profile, and the order and number in which every package lists them. */
module Notes {
  import opened Ranking

  /** Times are numbers; 0 is the unset time. */
  datatype Note = Note(
    id: string, problemID: string, title: string, summary: string, createdAt: int, tags: seq<string>, action: string)

  const MAX_NOTES: nat := 20

  /** Newest first, then by id. */
  function NoteRank(): Note -> Rank {
    (n: Note) => Rank(n.createdAt, n.id)
  }
}
