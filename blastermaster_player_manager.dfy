/** The save-slot manager of the BlasterMaster variant. It keeps the same
    world record, but passes folders and extensions as strings, reports an
    unset folder with its own message, creates player files empty, and
    lists saves by building an item from each file's name. */
module BlasterMasterPlayerManager {
  import opened Wrappers
  import opened WorldRecords
  import opened SaveFiles
  import BlastiaPlayerManager

  type SaveAction = BlastiaPlayerManager.SaveAction

  const SavePathMessage := "Save path not initialized."
  const PlayerExtension := ".bmplr"
  const WorldExtension := ".bmwld"

  /** The save names a folder listing holds for one extension, in order. */
  function SaveNames(files: seq<string>, extension: string): (names: seq<string>)
    ensures |names| == |Matching(files, extension)|
  {
    MapFiles(Matching(files, extension), FileNameWithoutExtension)
  }

  /** A listed save file `folder + name + extension` is listed under its
      name, whatever folder the listing gives its path in. */
  lemma ListedSaveHasItsName(files: seq<string>, folder: string, name: string, extension: string)
    requires folder == [] || IsSeparator(folder[|folder| - 1])
    requires forall j | 0 <= j < |name| :: !IsSeparator(name[j])
    requires |extension| > 0 && extension[0] == '.' && '.' !in extension[1..]
    requires forall j | 0 <= j < |extension| :: !IsSeparator(extension[j])
    requires folder + name + extension in files
    ensures name in SaveNames(files, extension)
  {
    var path := folder + name + extension;
    assert path == (folder + name) + extension;
    EndsWithAppended(folder + name, extension);
    var kept := Matching(files, extension);
    assert path in kept;
    var i :| 0 <= i < |kept| && kept[i] == path;
    NameRoundTrip(folder, name, extension);
    assert SaveNames(files, extension)[i] == name;
  }

  class PlayerManager {
    var playersSaveFolder: Option<string>
    var worldsSaveFolder: Option<string>
    var selectedPlayer: Option<PlayerState>
    var selectedWorld: WorldState?

    constructor ()
      ensures playersSaveFolder == None && worldsSaveFolder == None
      ensures selectedPlayer == None && selectedWorld == null
    {
      playersSaveFolder, worldsSaveFolder := None, None;
      selectedPlayer, selectedWorld := None, null;
    }

    method Initialize(playersSaveFolder: string, worldsSaveFolder: string)
      modifies this
      ensures this.playersSaveFolder == Some(playersSaveFolder)
      ensures this.worldsSaveFolder == Some(worldsSaveFolder)
      ensures selectedPlayer == old(selectedPlayer) && selectedWorld == old(selectedWorld)
    {
      this.playersSaveFolder := Some(playersSaveFolder);
      this.worldsSaveFolder := Some(worldsSaveFolder);
    }

    /** Creating a save file in `folder`: fails with "Save path not
        initialized." when the folder is null or empty; otherwise writes
        only when the folder exists and the file does not. */
    static function New(folder: Option<string>, name: string, extension: string, hasData: bool,
                        directoryExists: bool, existingFiles: set<SavePath>): (r: Result<SaveAction, string>)
      ensures r.Failure? <==> FolderUnset(folder)
      ensures r.Failure? ==> r.error == SavePathMessage
      ensures r.Success? && r.value != BlastiaPlayerManager.Skip ==>
        && directoryExists
        && r.value.path == GetPath(folder.value, name, extension)
        && r.value.path !in existingFiles
        && (r.value.SaveData? <==> hasData)
      ensures r.Success? && directoryExists ==>
        (GetPath(folder.value, name, extension) !in existingFiles ==> r.value != BlastiaPlayerManager.Skip)
    {
      if !FolderUnset(folder) then
        var fileName := GetPath(folder.value, name, extension);
        if directoryExists && fileName !in existingFiles then
          if hasData then Success(BlastiaPlayerManager.SaveData(fileName))
          else Success(BlastiaPlayerManager.CreateEmpty(fileName))
        else Success(BlastiaPlayerManager.Skip)
      else Failure(SavePathMessage)
    }

    static function Exists(folder: Option<string>, name: string, extension: string,
                           existingFiles: set<SavePath>): (r: Result<bool, string>)
      ensures r.Failure? <==> FolderUnset(folder)
      ensures r.Failure? ==> r.error == SavePathMessage
      ensures r.Success? ==> (r.value <==> GetPath(folder.value, name, extension) in existingFiles)
    {
      if !FolderUnset(folder) then Success(GetPath(folder.value, name, extension) in existingFiles)
      else Failure(SavePathMessage)
    }

    /** One item per listed file with the extension, in listing order,
        built from the file's name; nothing when the folder is unset. */
    static method LoadAll<T>(folder: Option<string>, extension: string, files: seq<string>,
                             newInstanceCreator: string -> T) returns (items: seq<T>)
      ensures FolderUnset(folder) ==> items == []
      ensures !FolderUnset(folder) ==> items == MapFiles(SaveNames(files, extension), newInstanceCreator)
    {
      if !FolderUnset(folder) {
        items := [];
        var i := 0;
        while i < |files|
          invariant 0 <= i <= |files|
          invariant items == MapFiles(SaveNames(files[..i], extension), newInstanceCreator)
        {
          assert files[..i + 1] == files[..i] + [files[i]];
          ghost var kept := Matching(files[..i], extension);
          if EndsWith(files[i], extension) {
            var name := FileNameWithoutExtension(files[i]);
            var item := newInstanceCreator(name);
            assert Matching(files[..i + 1], extension) == kept + [files[i]];
            MapFilesAppend(kept, files[i], FileNameWithoutExtension);
            MapFilesAppend(MapFiles(kept, FileNameWithoutExtension), name, newInstanceCreator);
            items := items + [item];
          } else {
            assert Matching(files[..i + 1], extension) == kept;
          }
          i := i + 1;
        }
        assert files[..|files|] == files;
        return;
      }
      return [];
    }

    /** A new player file is created empty: no player data is passed. */
    function NewPlayer(playerName: string, directoryExists: bool, existingFiles: set<SavePath>)
      : (r: Result<SaveAction, string>)
      reads this
      ensures r.Failure? <==> FolderUnset(playersSaveFolder)
      ensures r.Success? && r.value != BlastiaPlayerManager.Skip ==>
        r.value == BlastiaPlayerManager.CreateEmpty(GetPath(playersSaveFolder.value, playerName, ".bmplr"))
    {
      New(playersSaveFolder, playerName, PlayerExtension, false, directoryExists, existingFiles)
    }

    function PlayerExists(playerName: string, existingFiles: set<SavePath>): (r: Result<bool, string>)
      reads this
      ensures r.Failure? <==> FolderUnset(playersSaveFolder)
      ensures r.Success? ==> (r.value <==> GetPath(playersSaveFolder.value, playerName, ".bmplr") in existingFiles)
    {
      Exists(playersSaveFolder, playerName, PlayerExtension, existingFiles)
    }

    method LoadAllPlayers(files: seq<string>) returns (players: seq<PlayerState>)
      ensures FolderUnset(playersSaveFolder) ==> players == []
      ensures !FolderUnset(playersSaveFolder) ==>
        |players| == |SaveNames(files, ".bmplr")| &&
        forall i | 0 <= i < |players| :: players[i] == PlayerState(SaveNames(files, ".bmplr")[i])
    {
      players := LoadAll(playersSaveFolder, PlayerExtension, files, name => PlayerState(name));
    }

    method SelectPlayer(playerState: PlayerState)
      modifies this
      ensures selectedPlayer == Some(playerState)
      ensures selectedWorld == old(selectedWorld)
      ensures playersSaveFolder == old(playersSaveFolder) && worldsSaveFolder == old(worldsSaveFolder)
    {
      selectedPlayer := Some(playerState);
    }

    /** Builds a stone-filled world record of the given size, then saves it
        to the worlds folder with its data. */
    method NewWorld(worldName: string, difficulty: WorldDifficulty, worldWidth: int, worldHeight: int,
                    stone: UShort, directoryExists: bool, existingFiles: set<SavePath>)
      returns (world: WorldState, r: Result<SaveAction, string>)
      requires 0 <= worldWidth * worldHeight < 0x8000_0000
      ensures fresh(world) && fresh(world.tiles) && world.Valid()
      ensures world.name == worldName && world.difficulty == difficulty
      ensures world.worldWidth == worldWidth && world.worldHeight == worldHeight
      ensures forall x, y | world.View().InGrid(x, y) :: world.View().Get(x, y) == stone
      ensures world.tiles.Length == worldWidth * worldHeight
      ensures 0 <= worldWidth ==> forall i | 0 <= i < world.tiles.Length :: world.tiles[i] == stone
      ensures worldWidth <= 0 || worldHeight <= 0 ==> forall i | 0 <= i < world.tiles.Length :: world.tiles[i] == 0
      ensures r == New(worldsSaveFolder, worldName, WorldExtension, true, directoryExists, existingFiles)
    {
      world := new WorldState(worldName, difficulty, worldWidth, worldHeight);
      BlastiaPlayerManager.GenerateWorldTiles(world, stone);
      r := New(worldsSaveFolder, worldName, WorldExtension, true, directoryExists, existingFiles);
    }

    function WorldExists(worldName: string, existingFiles: set<SavePath>): (r: Result<bool, string>)
      reads this
      ensures r.Failure? <==> FolderUnset(worldsSaveFolder)
      ensures r.Success? ==> (r.value <==> GetPath(worldsSaveFolder.value, worldName, ".bmwld") in existingFiles)
    {
      Exists(worldsSaveFolder, worldName, WorldExtension, existingFiles)
    }

    /** One fresh world record per listed world file, carrying only its
        name; the tiles are not read. */
    method LoadAllWorlds(files: seq<string>) returns (worlds: seq<WorldState>)
      ensures FolderUnset(worldsSaveFolder) ==> worlds == []
      ensures !FolderUnset(worldsSaveFolder) ==> |worlds| == |SaveNames(files, ".bmwld")|
      ensures forall i | 0 <= i < |worlds| ::
        fresh(worlds[i]) && worlds[i].name == SaveNames(files, ".bmwld")[i] && worlds[i].difficulty == Easy &&
        worlds[i].worldWidth == 0 && worlds[i].worldHeight == 0 && worlds[i].tiles.Length == 0
    {
      var names := LoadAll(worldsSaveFolder, WorldExtension, files, name => name);
      worlds := [];
      var i := 0;
      while i < |names|
        invariant 0 <= i <= |names| && |worlds| == i
        invariant forall j | 0 <= j < i ::
          fresh(worlds[j]) && worlds[j].name == names[j] && worlds[j].difficulty == Easy &&
          worlds[j].worldWidth == 0 && worlds[j].worldHeight == 0 && worlds[j].tiles.Length == 0
      {
        var world := new WorldState.Named(names[i]);
        worlds := worlds + [world];
        i := i + 1;
      }
    }

    method SelectWorld(worldState: WorldState)
      modifies this
      ensures selectedWorld == worldState
      ensures selectedPlayer == old(selectedPlayer)
      ensures playersSaveFolder == old(playersSaveFolder) && worldsSaveFolder == old(worldsSaveFolder)
    {
      selectedWorld := worldState;
    }
  }
}
