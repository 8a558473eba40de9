/** The server's table of live games: which games are active, which socket
    plays which player, and which clients are linked to each game. */
module GameManager {
  import opened Common

  /** The game token and player name a user signs in with. */
  datatype UserAuth = UserAuth(gameToken: string, playerName: string)

  /** What a socket identifier is bound to: a game and a player in it. */
  datatype PlayerRef = PlayerRef(gameToken: string, playerName: string)

  /** A client linked to a game: its socket identifier and its player name. */
  datatype BindedSocket = BindedSocket(socketID: string, name: string)

  /** A received action once translated for its player, and the clients
      of the player's game it is announced to. */
  datatype Delivery<C> = Delivery(gameToken: string, playerName: string, action: C, clients: seq<BindedSocket>)

  /** No two clients share a name. */
  predicate DistinctNames(clients: seq<BindedSocket>) {
    forall i, j :: 0 <= i < j < |clients| ==> clients[i].name != clients[j].name
  }

  /** Every client plays under one of the given player names. */
  predicate NamesAmong(clients: seq<BindedSocket>, playerNames: seq<string>) {
    forall i :: 0 <= i < |clients| ==> clients[i].name in playerNames
  }

  /** `linkedClients.find(client => client.name === name)`: the first client
      with that name, if any. */
  function FindClient(clients: seq<BindedSocket>, name: string): (r: Option<BindedSocket>)
    ensures r.None? <==> forall i :: 0 <= i < |clients| ==> clients[i].name != name
    ensures r.Some? ==> r.value.name == name && r.value in clients
  {
    if clients == [] then None
    else if clients[0].name == name then Some(clients[0])
    else FindClient(clients[1..], name)
  }

  /** The names of a list of clients. */
  function NameSet(clients: seq<BindedSocket>): (s: set<string>)
    ensures forall n :: n in s <==> exists i :: 0 <= i < |clients| && clients[i].name == n
  {
    if clients == [] then {}
    else
      var s := NameSet(clients[..|clients| - 1]) + {clients[|clients| - 1].name};
      assert forall i :: 0 <= i < |clients| - 1 ==> clients[..|clients| - 1][i] == clients[i];
      s
  }

  /** The elements of a sequence of names. */
  function Elements(names: seq<string>): (s: set<string>)
    ensures forall n :: n in s <==> n in names
    ensures |s| <= |names|
  {
    if names == [] then {} else Elements(names[1..]) + {names[0]}
  }

  lemma {:induction false} NameSetSize(clients: seq<BindedSocket>)
    requires DistinctNames(clients)
    ensures |NameSet(clients)| == |clients|
  {
    if clients != [] {
      var prefix := clients[..|clients| - 1];
      var last := clients[|clients| - 1].name;
      assert DistinctNames(prefix) by {
        forall i, j | 0 <= i < j < |prefix|
          ensures prefix[i].name != prefix[j].name
        {
          assert prefix[i] == clients[i] && prefix[j] == clients[j];
        }
      }
      NameSetSize(prefix);
      assert last !in NameSet(prefix) by {
        forall i | 0 <= i < |prefix|
          ensures prefix[i].name != last
        {
          assert prefix[i] == clients[i];
        }
      }
    }
  }

  lemma {:induction false} SubsetSize(a: set<string>, b: set<string>)
    requires a <= b
    ensures |a| <= |b|
    decreases a
  {
    if a != {} {
      var x :| x in a;
      SubsetSize(a - {x}, b - {x});
    }
  }

  /** A game never has more linked clients than players: the clients' names
      are distinct and are all names of the game's players. */
  lemma LinkedWithinPlayers(clients: seq<BindedSocket>, playerNames: seq<string>)
    requires DistinctNames(clients) && NamesAmong(clients, playerNames)
    ensures |clients| <= |playerNames|
  {
    NameSetSize(clients);
    SubsetSize(NameSet(clients), Elements(playerNames));
  }

  /** The server side of a game as the registry uses it. The game itself is
      not part of this model: it is reduced to its token, its players' names,
      and a record of the calls the registry makes on it. */
  class ServerGame {
    const gameToken: string
    const playerNames: seq<string>
    /** How many times `start` was called. */
    var startCalls: nat
    /** The names passed to `forfeit`, in order. */
    var forfeits: seq<string>

    constructor (gameToken: string, playerNames: seq<string>)
      ensures this.gameToken == gameToken && this.playerNames == playerNames
      ensures startCalls == 0 && forfeits == []
    {
      this.gameToken := gameToken;
      this.playerNames := playerNames;
      startCalls := 0;
      forfeits := [];
    }

    method Start()
      modifies this
      ensures startCalls == old(startCalls) + 1
      ensures forfeits == old(forfeits)
    {
      startCalls := startCalls + 1;
    }

    method Forfeit(playerName: string)
      modifies this
      ensures forfeits == old(forfeits) + [playerName]
      ensures startCalls == old(startCalls)
    {
      forfeits := forfeits + [playerName];
    }
  }

  function NotActiveMessage(gameToken: string): string {
    "GameToken " + gameToken + " is not in active game"
  }

  function NotCreatedMessage(playerName: string, gameToken: string): string {
    "Player " + playerName + " not created in " + gameToken
  }

  function NoClientsMessage(gameToken: string): string {
    "Can't add player, GameToken " + gameToken + " is not in active game"
  }

  function AlreadyLinkedMessage(playerName: string, gameToken: string): string {
    "Can't add player, someone else is already linked to " + gameToken + " with " + playerName
  }

  function InactivePlayerMessage(playerId: string): string {
    "Player " + playerId + " is not active anymore"
  }

  class GameManagerService {
    var activeGames: map<string, ServerGame>
    var activePlayers: map<string, PlayerRef>
    var linkedClients: map<string, seq<BindedSocket>>

    /** The registry's invariant: a game and its client list are registered
        together, under the game's own token; the clients of a game are
        players of it with distinct names; and a game has been started once
        exactly when two or more clients are linked to it. */
    ghost predicate Valid()
      reads this, activeGames.Values
    {
      && activeGames.Keys == linkedClients.Keys
      && (forall t :: t in activeGames ==> activeGames[t].gameToken == t)
      && (forall t :: t in linkedClients ==> DistinctNames(linkedClients[t]))
      && (forall t :: t in activeGames ==> NamesAmong(linkedClients[t], activeGames[t].playerNames))
      && (forall t :: t in activeGames ==>
            activeGames[t].startCalls == (if |linkedClients[t]| >= 2 then 1 else 0))
    }

    /** Whether a user can be linked to a game: the game is active, the name
        is one of its players, and no client is linked under that name yet. */
    ghost predicate CanLink(userAuth: UserAuth)
      reads this, activeGames.Values
    {
      && userAuth.gameToken in activeGames
      && userAuth.playerName in activeGames[userAuth.gameToken].playerNames
      && userAuth.gameToken in linkedClients
      && FindClient(linkedClients[userAuth.gameToken], userAuth.playerName).None?
    }

    constructor ()
      ensures Valid()
      ensures activeGames == map[] && activePlayers == map[] && linkedClients == map[]
    {
      activeGames := map[];
      activePlayers := map[];
      linkedClients := map[];
    }

    /** `createGame`: registers a new game under its token, replacing any
        game that had it, with no client linked yet. */
    method CreateGame(gameToken: string, playerNames: seq<string>)
      requires Valid()
      modifies this
      ensures Valid()
      ensures gameToken in activeGames && fresh(activeGames[gameToken])
      ensures activeGames == old(activeGames)[gameToken := activeGames[gameToken]]
      ensures activeGames[gameToken].playerNames == playerNames
      ensures activeGames[gameToken].startCalls == 0 && activeGames[gameToken].forfeits == []
      ensures linkedClients == old(linkedClients)[gameToken := []]
      ensures activePlayers == old(activePlayers)
    {
      var newServerGame := new ServerGame(gameToken, playerNames);
      activeGames := activeGames[gameToken := newServerGame];
      linkedClients := linkedClients[gameToken := []];
    }

    /** `addPlayerToGame`: links a socket to a player of an active game,
        failing when the game is not active, the name is not one of its
        players, or a client is already linked under that name. The game is
        started when its second client is linked. */
    method AddPlayerToGame(playerId: string, userAuth: UserAuth) returns (r: Result<()>)
      requires Valid()
      modifies this, if userAuth.gameToken in activeGames then {activeGames[userAuth.gameToken]} else {}
      ensures Valid()
      ensures r.Ok? <==> old(CanLink(userAuth))
      ensures userAuth.gameToken !in old(activeGames) ==> r == Err(NotActiveMessage(userAuth.gameToken))
      ensures userAuth.gameToken in old(activeGames)
              && userAuth.playerName !in old(activeGames[userAuth.gameToken].playerNames)
              ==> r == Err(NotCreatedMessage(userAuth.playerName, userAuth.gameToken))
      ensures userAuth.gameToken in old(activeGames)
              && userAuth.playerName in old(activeGames[userAuth.gameToken].playerNames)
              && FindClient(old(linkedClients[userAuth.gameToken]), userAuth.playerName).Some?
              ==> r == Err(AlreadyLinkedMessage(userAuth.playerName, userAuth.gameToken))
      ensures activeGames == old(activeGames)
      ensures r.Err? ==> activePlayers == old(activePlayers) && linkedClients == old(linkedClients)
      ensures r.Ok? ==> activePlayers == old(activePlayers)[playerId := PlayerRef(userAuth.gameToken, userAuth.playerName)]
      ensures r.Ok? ==> linkedClients == old(linkedClients)[userAuth.gameToken :=
                          old(linkedClients[userAuth.gameToken]) + [BindedSocket(playerId, userAuth.playerName)]]
      ensures userAuth.gameToken in activeGames ==>
                activeGames[userAuth.gameToken].forfeits == old(activeGames[userAuth.gameToken].forfeits)
      ensures userAuth.gameToken in activeGames ==>
                activeGames[userAuth.gameToken].startCalls == old(activeGames[userAuth.gameToken].startCalls)
                  + (if r.Ok? && |linkedClients[userAuth.gameToken]| == 2 then 1 else 0)
    {
      var gameToken := userAuth.gameToken;
      if gameToken !in activeGames {
        return Err(NotActiveMessage(gameToken));
      }
      var game := activeGames[gameToken];
      var playerName := userAuth.playerName;
      if playerName !in game.playerNames {
        return Err(NotCreatedMessage(playerName, gameToken));
      }
      if gameToken !in linkedClients {
        return Err(NoClientsMessage(gameToken));
      }
      var linkedClientsInGame := linkedClients[gameToken];
      var clientFound := FindClient(linkedClientsInGame, playerName);
      if clientFound.Some? {
        return Err(AlreadyLinkedMessage(playerName, gameToken));
      }
      Link(playerId, game, playerName);
      r := Ok(());
    }

    /** The success path of `addPlayerToGame`: binds the socket, appends the
        client, and starts the game when it is the second one. */
    method Link(playerId: string, game: ServerGame, playerName: string)
      requires Valid() && game.gameToken in activeGames && activeGames[game.gameToken] == game
      requires playerName in game.playerNames
      requires FindClient(linkedClients[game.gameToken], playerName).None?
      modifies this, game
      ensures Valid()
      ensures activeGames == old(activeGames)
      ensures activePlayers == old(activePlayers)[playerId := PlayerRef(game.gameToken, playerName)]
      ensures linkedClients == old(linkedClients)[game.gameToken :=
                old(linkedClients[game.gameToken]) + [BindedSocket(playerId, playerName)]]
      ensures game.forfeits == old(game.forfeits)
      ensures game.startCalls == old(game.startCalls) + (if |linkedClients[game.gameToken]| == 2 then 1 else 0)
    {
      var gameToken := game.gameToken;
      var linkedClientsInGame := linkedClients[gameToken];
      activePlayers := activePlayers[playerId := PlayerRef(gameToken, playerName)];
      linkedClientsInGame := linkedClientsInGame + [BindedSocket(playerId, playerName)];
      assert DistinctNames(linkedClientsInGame);
      assert NamesAmong(linkedClientsInGame, game.playerNames);
      linkedClients := linkedClients[gameToken := linkedClientsInGame];
      if |linkedClientsInGame| == 2 {
        game.Start();
      }
    }

    /** `receivePlayerAction`: fails for a socket bound to no player;
        otherwise translates the action for that player and announces it to
        the clients of the player's game. A failure to translate, or a game
        with no client list, ends the call quietly. */
    method ReceivePlayerAction<A, C>(playerId: string, action: A, translate: (A, string) -> Option<C>)
      returns (r: Result<Option<Delivery<C>>>)
      ensures r.Err? <==> playerId !in activePlayers
      ensures r.Err? ==> r == Err(InactivePlayerMessage(playerId))
      ensures r.Ok? && r.value.Some? <==>
                playerId in activePlayers
                && translate(action, activePlayers[playerId].playerName).Some?
                && activePlayers[playerId].gameToken in linkedClients
      ensures r.Ok? && r.value.Some? ==>
                var ref := activePlayers[playerId];
                r.value.value == Delivery(ref.gameToken, ref.playerName,
                                          translate(action, ref.playerName).value,
                                          linkedClients[ref.gameToken])
    {
      if playerId !in activePlayers {
        return Err(InactivePlayerMessage(playerId));
      }
      var playerRef := activePlayers[playerId];
      var compiledAction := translate(action, playerRef.playerName);
      if compiledAction.None? {
        return Ok(None);
      }
      var gameToken := playerRef.gameToken;
      if gameToken !in linkedClients {
        return Ok(None);
      }
      r := Ok(Some(Delivery(gameToken, playerRef.playerName, compiledAction.value, linkedClients[gameToken])));
    }

    /** `removePlayerFromGame`: for a socket bound to a player of an active
        game, unbinds the socket, makes that player forfeit and unregisters
        the game; otherwise does nothing. */
    method RemovePlayerFromGame(playerId: string)
      requires Valid()
      modifies this, activeGames.Values
      ensures Valid()
      ensures playerId !in old(activePlayers) || old(activePlayers[playerId].gameToken) !in old(activeGames) ==>
                activePlayers == old(activePlayers) && activeGames == old(activeGames)
                && linkedClients == old(linkedClients)
                && forall t :: t in old(activeGames) ==> unchanged(old(activeGames)[t])
      ensures playerId in old(activePlayers) && old(activePlayers[playerId].gameToken) in old(activeGames) ==>
                var ref := old(activePlayers[playerId]);
                && activePlayers == old(activePlayers) - {playerId}
                && activeGames == old(activeGames) - {ref.gameToken}
                && linkedClients == old(linkedClients) - {ref.gameToken}
                && old(activeGames)[ref.gameToken].forfeits == old(activeGames[ref.gameToken].forfeits) + [ref.playerName]
                && forall t :: t in activeGames ==> unchanged(activeGames[t])
    {
      if playerId !in activePlayers {
        return;
      }
      var playerRef := activePlayers[playerId];
      var gameToken := playerRef.gameToken;
      if gameToken !in activeGames {
        return;
      }
      var game := activeGames[gameToken];
      activePlayers := activePlayers - {playerId};
      game.Forfeit(playerRef.playerName);
      DeleteGame(gameToken);
    }

    /** `deleteGame`: unregisters a game and its client list; the sockets
        bound to its players stay bound. */
    method DeleteGame(gameToken: string)
      requires Valid()
      modifies this
      ensures Valid()
      ensures activeGames == old(activeGames) - {gameToken}
      ensures linkedClients == old(linkedClients) - {gameToken}
      ensures activePlayers == old(activePlayers)
    {
      activeGames := activeGames - {gameToken};
      linkedClients := linkedClients - {gameToken};
    }
  }
}
