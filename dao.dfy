/** api/domain/dao/dao.go: the stored records. Ids, years and versions are
    int64 columns, modelled as unbounded integers; a creation time is an
    opaque timestamp; a duration is the int64 number of seconds of
    utils.Duration. */
module Dao {

  datatype Artist = Artist(id: int, name: string)

  datatype Track = Track(
    id: int,
    createdAt: int,
    idArtist: int,
    title: string,
    duration: int,
    year: int,
    genre: seq<string>,
    version: int)

  /** One row of the likes relation: user `idUsers` likes track `idTracks`. */
  datatype Like = Like(idUsers: int, idTracks: int)
}
