/** The Playlist handler: create a playlist owned by the caller. */
module PlaylistController {
  import opened Common
  import opened Entities
  import opened Listing

  /** Every stored playlist sits under its own id. */
  ghost predicate KeyedById(playlists: map<Id, Playlist>) {
    forall k | k in playlists :: playlists[k].id == k
  }

  /** The playlists a user owns. */
  function PlaylistsOf(playlists: map<Id, Playlist>, owner: Id): set<Playlist> {
    set p | p in playlists.Values && p.owner == owner
  }

  /** The Playlist collection, extended by createPlaylist. */
  class PlaylistStore {
    var playlists: map<Id, Playlist>

    ghost predicate Valid()
      reads this
    {
      KeyedById(playlists)
    }

    constructor ()
      ensures Valid() && playlists == map[]
    {
      playlists := map[];
    }

    /** createPlaylist: 400 when the name is missing or empty; otherwise a new,
        empty playlist owned by the caller, with the name and description as
        supplied, and every existing playlist left as it was. */
    method CreatePlaylist(name: Option<string>, description: Option<string>, actor: Id, newId: Id)
      returns (r: Response<Playlist>)
      requires Valid()
      requires newId !in playlists
      modifies this
      ensures Valid()
      ensures !Truthy(name) ==> r == Err(BAD_REQUEST, "Playlist name is required") && playlists == old(playlists)
      ensures Truthy(name) ==>
        var p := Playlist(newId, name.value, description, actor, []);
        r == Ok(CREATED, p) && playlists == old(playlists)[newId := p]
    {
      if !Truthy(name) {
        return Err(BAD_REQUEST, "Playlist name is required");
      }
      var p := Playlist(newId, name.value, description, actor, []);
      playlists := playlists[newId := p];
      r := Ok(CREATED, p);
    }
  }

  /** A created playlist is the caller's: it joins the caller's playlists, and
      no other user's playlists change. */
  lemma CreatedPlaylistOwned(playlists: map<Id, Playlist>, p: Playlist, user: Id)
    requires KeyedById(playlists) && p.id !in playlists
    ensures p.owner == user ==> PlaylistsOf(playlists[p.id := p], user) == PlaylistsOf(playlists, user) + {p}
    ensures p.owner != user ==> PlaylistsOf(playlists[p.id := p], user) == PlaylistsOf(playlists, user)
  {
    forall j | j in playlists ensures playlists[j] != p {
      assert playlists[j].id == j;
    }
    ValuesAfterInsert(playlists, p.id, p);
  }
}
