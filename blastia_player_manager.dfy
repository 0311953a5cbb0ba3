/** The save-slot manager of the Blastia variant: two save folders, the
    selected player and world, and the creation of new world records. */
module BlastiaPlayerManager {
  import opened Wrappers
  import opened WorldRecords
  import opened SaveFiles

  datatype SaveFolder = Player | World
  datatype Extension = Player | World

  const FolderNullMessage := "Provided folder path is null."

  /** What `New` does once its folder guard passes: nothing (the folder is
      missing or the file already exists), serialise the given data, or
      create an empty file. */
  datatype SaveAction = Skip | SaveData(path: SavePath) | CreateEmpty(path: SavePath)

  /** The extension of a save kind: a single leading period, so that a
      file name gives its save name back. */
  function GetExtension(extensionType: Extension): (extension: string)
    ensures |extension| == 6 && extension[0] == '.' && '.' !in extension[1..]
  {
    match extensionType
    case Player => ".bmplr"
    case World => ".bmwld"
  }

  /** No file name ends with both extensions, so a player listing never
      picks up a world file and the other way round. */
  lemma ExtensionsKeepKindsApart(file: string)
    ensures !(EndsWith(file, GetExtension(Extension.Player)) && EndsWith(file, GetExtension(Extension.World)))
  {
  }

  /** Fills every cell of a world with stone, column by column. */
  method GenerateWorldTiles(world: WorldState, stone: UShort)
    requires world.Valid()
    modifies world.tiles
    ensures world.Valid()
    ensures forall x, y | world.View().InGrid(x, y) :: world.View().Get(x, y) == stone
    ensures 0 <= world.worldWidth ==> forall i | 0 <= i < world.tiles.Length :: world.tiles[i] == stone
    ensures world.worldWidth <= 0 || world.worldHeight <= 0 ==> world.tiles[..] == old(world.tiles[..])
  {
    var width, height := world.worldWidth, world.worldHeight;
    var x := 0;
    while x < width
      invariant 0 <= x && (x <= width || x == 0)
      invariant forall cx, cy | world.View().InGrid(cx, cy) && cx < x :: world.View().Get(cx, cy) == stone
      invariant height <= 0 || x == 0 ==> world.tiles[..] == old(world.tiles[..])
    {
      var y := 0;
      while y < height
        invariant 0 <= y && (y <= height || y == 0)
        invariant forall cx, cy | world.View().InGrid(cx, cy) && (cx < x || (cx == x && cy < y)) ::
          world.View().Get(cx, cy) == stone
        invariant height <= 0 ==> world.tiles[..] == old(world.tiles[..])
      {
        CellIndexInBounds(width, height, x, y);
        ghost var before := world.View();
        world.SetTile(x, y, stone);
        forall cx, cy | before.InGrid(cx, cy)
          ensures world.View().Get(cx, cy) == if cx == x && cy == y then stone else before.Get(cx, cy)
        {
          GetAfterSet(before, x, y, stone, cx, cy);
        }
        y := y + 1;
      }
      x := x + 1;
    }
    if 0 <= width {
      AllCellsAllTiles(world.View(), stone);
    }
  }

  class PlayerManager {
    var playersSaveFolder: Option<string>
    var worldsSaveFolder: Option<string>
    var selectedPlayer: Option<PlayerState>
    var selectedWorld: WorldState?

    constructor ()
      ensures playersSaveFolder == None && worldsSaveFolder == None
      ensures selectedPlayer == None && selectedWorld == null
    {
      playersSaveFolder, worldsSaveFolder := None, None;
      selectedPlayer, selectedWorld := None, null;
    }

    method Initialize(playersSaveFolder: string, worldsSaveFolder: string)
      modifies this
      ensures this.playersSaveFolder == Some(playersSaveFolder)
      ensures this.worldsSaveFolder == Some(worldsSaveFolder)
      ensures GetFolder(SaveFolder.Player) == Some(playersSaveFolder)
      ensures GetFolder(SaveFolder.World) == Some(worldsSaveFolder)
      ensures selectedPlayer == old(selectedPlayer) && selectedWorld == old(selectedWorld)
    {
      this.playersSaveFolder := Some(playersSaveFolder);
      this.worldsSaveFolder := Some(worldsSaveFolder);
    }

    /** The folder a kind of save lives in: players and worlds each keep
        their own. */
    function GetFolder(folderType: SaveFolder): (folder: Option<string>)
      reads this
      ensures folderType.Player? ==> folder == playersSaveFolder
      ensures folderType.World? ==> folder == worldsSaveFolder
    {
      match folderType
      case Player => playersSaveFolder
      case World => worldsSaveFolder
    }

    /** Creating a save file: fails with the "folder is null" message when
        the folder is null or empty; otherwise writes `folder/name.ext`
        only when the folder exists and the file does not. */
    function New(folderType: SaveFolder, name: string, extensionType: Extension, hasData: bool,
                 directoryExists: bool, existingFiles: set<SavePath>): (r: Result<SaveAction, string>)
      reads this
      ensures r.Failure? <==> FolderUnset(GetFolder(folderType))
      ensures r.Failure? ==> r.error == FolderNullMessage
      ensures r.Success? && r.value != Skip ==>
        && directoryExists
        && r.value.path == GetPath(GetFolder(folderType).value, name, GetExtension(extensionType))
        && r.value.path !in existingFiles
        && (r.value.SaveData? <==> hasData)
      ensures r.Success? && directoryExists ==>
        (GetPath(GetFolder(folderType).value, name, GetExtension(extensionType)) !in existingFiles ==> r.value != Skip)
    {
      var folder := GetFolder(folderType);
      var extension := GetExtension(extensionType);
      if !FolderUnset(folder) then
        var fileName := GetPath(folder.value, name, extension);
        if directoryExists && fileName !in existingFiles then
          if hasData then Success(SaveData(fileName)) else Success(CreateEmpty(fileName))
        else Success(Skip)
      else Failure(FolderNullMessage)
    }

    /** Whether `folder/name.ext` exists; fails like `New` on an unset folder. */
    function Exists(folderType: SaveFolder, name: string, extensionType: Extension,
                    existingFiles: set<SavePath>): (r: Result<bool, string>)
      reads this
      ensures r.Failure? <==> FolderUnset(GetFolder(folderType))
      ensures r.Failure? ==> r.error == FolderNullMessage
      ensures r.Success? ==>
        (r.value <==> GetPath(GetFolder(folderType).value, name, GetExtension(extensionType)) in existingFiles)
    {
      var folder := GetFolder(folderType);
      var extension := GetExtension(extensionType);
      if !FolderUnset(folder) then
        Success(GetPath(folder.value, name, extension) in existingFiles)
      else Failure(FolderNullMessage)
    }

    /** `New` writes a file exactly when `Exists` would have answered false
        for it, and `Exists` answers true once that file is there. */
    lemma NewThenExists(folderType: SaveFolder, name: string, extensionType: Extension, hasData: bool,
                        existingFiles: set<SavePath>)
      requires !FolderUnset(GetFolder(folderType))
      ensures New(folderType, name, extensionType, hasData, true, existingFiles) != Success(Skip)
        <==> Exists(folderType, name, extensionType, existingFiles) == Success(false)
      ensures New(folderType, name, extensionType, hasData, true, existingFiles).value != Skip ==>
        Exists(folderType, name, extensionType,
               existingFiles + {New(folderType, name, extensionType, hasData, true, existingFiles).value.path})
        == Success(true)
    {
    }

    /** Loads every file of the folder listing that ends with the
        extension, in listing order; nothing when the folder is unset. */
    method LoadAll<T>(folderType: SaveFolder, extensionType: Extension, files: seq<string>, load: string -> T)
      returns (items: seq<T>)
      ensures FolderUnset(GetFolder(folderType)) ==> items == []
      ensures !FolderUnset(GetFolder(folderType)) ==>
        items == MapFiles(Matching(files, GetExtension(extensionType)), load)
    {
      var folder := GetFolder(folderType);
      var extension := GetExtension(extensionType);
      if !FolderUnset(folder) {
        items := [];
        var i := 0;
        while i < |files|
          invariant 0 <= i <= |files|
          invariant items == MapFiles(Matching(files[..i], extension), load)
        {
          assert files[..i + 1][..i] == files[..i];
          if EndsWith(files[i], extension) {
            items := items + [load(files[i])];
          }
          i := i + 1;
        }
        assert files[..|files|] == files;
        return;
      }
      return [];
    }

    function NewPlayer(playerName: string, directoryExists: bool, existingFiles: set<SavePath>)
      : (r: Result<SaveAction, string>)
      reads this
      ensures r.Failure? <==> FolderUnset(playersSaveFolder)
      ensures r.Success? && r.value != Skip ==>
        r.value == SaveData(GetPath(playersSaveFolder.value, playerName, ".bmplr"))
    {
      New(SaveFolder.Player, playerName, Extension.Player, true, directoryExists, existingFiles)
    }

    function PlayerExists(playerName: string, existingFiles: set<SavePath>): (r: Result<bool, string>)
      reads this
      ensures r.Failure? <==> FolderUnset(playersSaveFolder)
      ensures r.Success? ==> (r.value <==> GetPath(playersSaveFolder.value, playerName, ".bmplr") in existingFiles)
    {
      Exists(SaveFolder.Player, playerName, Extension.Player, existingFiles)
    }

    method LoadAllPlayers(files: seq<string>, load: string -> PlayerState) returns (players: seq<PlayerState>)
      ensures !FolderUnset(playersSaveFolder) ==> players == MapFiles(Matching(files, ".bmplr"), load)
      ensures FolderUnset(playersSaveFolder) ==> players == []
    {
      players := LoadAll(SaveFolder.Player, Extension.Player, files, load);
    }

    method SelectPlayer(playerState: PlayerState)
      modifies this
      ensures selectedPlayer == Some(playerState)
      ensures selectedWorld == old(selectedWorld)
      ensures playersSaveFolder == old(playersSaveFolder) && worldsSaveFolder == old(worldsSaveFolder)
    {
      selectedPlayer := Some(playerState);
    }

    /** Builds a stone-filled world record of the given size, then saves it
        to the worlds folder. */
    method NewWorld(worldName: string, difficulty: WorldDifficulty, worldWidth: int, worldHeight: int,
                    stone: UShort, directoryExists: bool, existingFiles: set<SavePath>)
      returns (world: WorldState, r: Result<SaveAction, string>)
      requires 0 <= worldWidth * worldHeight < 0x8000_0000
      ensures fresh(world) && fresh(world.tiles) && world.Valid()
      ensures world.name == worldName && world.difficulty == difficulty
      ensures world.worldWidth == worldWidth && world.worldHeight == worldHeight
      ensures forall x, y | world.View().InGrid(x, y) :: world.View().Get(x, y) == stone
      ensures world.tiles.Length == worldWidth * worldHeight
      ensures 0 <= worldWidth ==> forall i | 0 <= i < world.tiles.Length :: world.tiles[i] == stone
      ensures worldWidth <= 0 || worldHeight <= 0 ==> forall i | 0 <= i < world.tiles.Length :: world.tiles[i] == 0
      ensures r == New(SaveFolder.World, worldName, Extension.World, true, directoryExists, existingFiles)
    {
      world := new WorldState(worldName, difficulty, worldWidth, worldHeight);
      GenerateWorldTiles(world, stone);
      r := New(SaveFolder.World, worldName, Extension.World, true, directoryExists, existingFiles);
    }

    function WorldExists(worldName: string, existingFiles: set<SavePath>): (r: Result<bool, string>)
      reads this
      ensures r.Failure? <==> FolderUnset(worldsSaveFolder)
      ensures r.Success? ==> (r.value <==> GetPath(worldsSaveFolder.value, worldName, ".bmwld") in existingFiles)
    {
      Exists(SaveFolder.World, worldName, Extension.World, existingFiles)
    }

    method LoadAllWorlds(files: seq<string>, load: string -> WorldState) returns (worlds: seq<WorldState>)
      ensures !FolderUnset(worldsSaveFolder) ==> worlds == MapFiles(Matching(files, ".bmwld"), load)
      ensures FolderUnset(worldsSaveFolder) ==> worlds == []
    {
      worlds := LoadAll(SaveFolder.World, Extension.World, files, load);
    }

    method SelectWorld(worldState: WorldState)
      modifies this
      ensures selectedWorld == worldState
      ensures selectedPlayer == old(selectedPlayer)
      ensures playersSaveFolder == old(playersSaveFolder) && worldsSaveFolder == old(worldsSaveFolder)
    {
      selectedWorld := worldState;
    }
  }
}
