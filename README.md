# Jackut in Dafny

Jackut is a small social network. It has accounts with a key/value profile, and friendships made by invite and acceptance. Users can be idols and fans, crushes (a mutual crush sends a notice to both sides) and enemies. There are private notes with their authors, communities with an owner and a member list, broadcast messages to a community, and a session table that maps "sessao_N" ids to logins. This project models the in-memory engine behind the façade and proves what its operations do.

The model has two layers.

- **Values.** Each operation has a pure specification over values:
  - `UserData` is one user's state. Its relation sets hold logins, because two users are equal exactly when their logins are.
  - `Users` maps each login to its `UserData`.
  - `CommunityData` and `Communities` are the community counterparts.
  - `SessionTable` holds the session map and the next counter value.
  - `SystemState` is the whole system.
- **Objects.** The Java classes become Dafny classes with the same fields: `Usuario`, `Perfil`, `Comunidade`, `UserManager`, `SessionManager`, `CommunityManager`, `RelationshipManager` and `Facade`.
  - Their methods change those fields in place, under `modifies` clauses.
  - Each method is proved to move the abstract view (`Data()`, `View()`, `Table()`, `State()`) exactly as the pure specification says.
  - The loops of the source are loops here, with their invariants: the deletion cascade over all users, the broadcast over the members, the collection of owned communities, and the list building of the listings.

The lemmas relate the specifications to each other:

- error order;
- "a refused request changes nothing";
- mirrored edges (invite and received invite, friend and friend, idol and fan), kept by every relationship operation and by deletion, but broken when a deleted login is registered again (see "## Findings");
- first-in first-out queues;
- the cascades;
- the owner always being a member;
- distinct session ids between resets.

Deleting an account follows the code rather than its comments. The cascade loop in `UserManager.removerUsuario` also calls `remove` on the friend, invite, idol, fan and crush sets of every other user. Those calls act on the defensive copies that the `Usuario` getters return, so they change nothing. Only the enemy set and the notes are actually cleaned. The model does the same, and `RemoveUserEffect` and `RemoveUserLeavesDanglingFriend` state the outcome. The cascade that the loop evidently intends, which removes the login from every set, is given beside it as `RemoveUserCleanly`, with its properties proved. The classes keep the cascade as written, because they model the code.

Modules, one per file:

| file | module | models |
|---|---|---|
| errors.dfy | Errors | the error kinds (one per exception message), `Outcome`, `Result`, `Option` |
| text.dfy | Text | `String.compareTo` order, `Collections.sort`, `"{" + String.join(",", …) + "}"`, decimal rendering of an `int` |
| profiles.dfy | Profiles | `Perfil` |
| accounts.dfy | Accounts | `Usuario` and its value-level operations |
| user_management.dfy | UserManagement | `UserManager` |
| relationships.dfy | Relationships | `RelationshipManager` |
| groups.dfy | Groups | `Comunidade` |
| community_management.dfy | CommunityManagement | `CommunityManager` |
| session_management.dfy | SessionManagement | `SessionManager` |
| jackut.dfy | Jackut | `Facade` |

## Model

| member | source | states |
|---|---|---|
| Profiles.Perfil.constructor | bootstrap-Jackut/P2-2023.1-JACKUT/src/br/ufal/ic/p2/jackut/models/Perfil.java:21 | a new profile has no attribute |
| Profiles.Perfil.AdicionarAtributo | bootstrap-Jackut/P2-2023.1-JACKUT/src/br/ufal/ic/p2/jackut/models/Perfil.java:29-36 | an empty key fails with AttributeNotSet and leaves the map alone; otherwise the key is overwritten, reads back as the new value, and every other key keeps its value |
| Profiles.Perfil.GetAtributo | bootstrap-Jackut/P2-2023.1-JACKUT/src/br/ufal/ic/p2/jackut/models/Perfil.java:43-45 | no value (null) exactly for a key never written, otherwise the stored value |
| Accounts.Usuario.constructor | bootstrap-Jackut/P2-2023.1-JACKUT/src/br/ufal/ic/p2/jackut/models/Usuario.java:47-52 | login, password and name as given, a fresh empty profile, every relation set and queue empty |
| Accounts.Usuario.EnviarConvite | bootstrap-Jackut/P2-2023.1-JACKUT/src/br/ufal/ic/p2/jackut/models/Usuario.java:72-77 | a repeated invite changes nothing; a first one adds the target to the sent set and the sender to the target's received set, and nothing else changes |
| Accounts.Usuario.ReceberConvite | bootstrap-Jackut/P2-2023.1-JACKUT/src/br/ufal/ic/p2/jackut/models/Usuario.java:83-87 | the inviter joins the received set |
| Accounts.Usuario.AdicionarIdolo | bootstrap-Jackut/P2-2023.1-JACKUT/src/br/ufal/ic/p2/jackut/models/Usuario.java:94-100 | an existing idol fails with AlreadyIdol and changes nothing; otherwise the idol joins the idol set, the user joins the idol's fans, and EhFa holds |
| Accounts.Usuario.AdicionarPaquera | bootstrap-Jackut/P2-2023.1-JACKUT/src/br/ufal/ic/p2/jackut/models/Usuario.java:107-121 | a duplicate fails with AlreadyCrush and changes nothing; otherwise the crush is added; one notice goes to each side, attributed to the other login, exactly when the crush is mutual (both land in one queue for a self-crush) |
| Accounts.Usuario.AdicionarInimigo | bootstrap-Jackut/P2-2023.1-JACKUT/src/br/ufal/ic/p2/jackut/models/Usuario.java:128-133 | a duplicate fails with AlreadyEnemy; otherwise only this user's enemy set grows |
| Accounts.Usuario.LimparRecadosDoUsuario | bootstrap-Jackut/P2-2023.1-JACKUT/src/br/ufal/ic/p2/jackut/models/Usuario.java:139-149 | the loop keeps, in order, exactly the notes whose recorded author is not the login, and drops that login's author entries |
| Accounts.Usuario.Desvincular | bootstrap-Jackut/P2-2023.1-JACKUT/src/br/ufal/ic/p2/jackut/managers/UserManager.java:73-74 | one step of the deletion cascade: the login leaves the enemy set and its notes are purged |
| Accounts.Usuario.AceitarConvite | bootstrap-Jackut/P2-2023.1-JACKUT/src/br/ufal/ic/p2/jackut/models/Usuario.java:156-164 | returns whether an invite was pending; if so it is consumed on both sides and each user joins the other's friends, otherwise nothing changes |
| Accounts.Usuario.LerRecado | bootstrap-Jackut/P2-2023.1-JACKUT/src/br/ufal/ic/p2/jackut/models/Usuario.java:170-176 | pops the oldest note (none on an empty queue) and drops the author entry of its text |
| Accounts.Usuario.TemRecados | bootstrap-Jackut/P2-2023.1-JACKUT/src/br/ufal/ic/p2/jackut/models/Usuario.java:191-193 | true exactly when reading a note would return one |
| Accounts.Usuario.ReceberRecado | bootstrap-Jackut/P2-2023.1-JACKUT/src/br/ufal/ic/p2/jackut/models/Usuario.java:200-203 | appends the note and records its author under its text |
| Accounts.Usuario.ReceberMensagem | bootstrap-Jackut/P2-2023.1-JACKUT/src/br/ufal/ic/p2/jackut/models/Usuario.java:209-211 | appends the message |
| Accounts.Usuario.TemMensagens | bootstrap-Jackut/P2-2023.1-JACKUT/src/br/ufal/ic/p2/jackut/models/Usuario.java:217-219 | true exactly when reading a message would return one |
| Accounts.Usuario.LerMensagem | bootstrap-Jackut/P2-2023.1-JACKUT/src/br/ufal/ic/p2/jackut/models/Usuario.java:252-254 | pops the oldest message, none on an empty queue |
| Accounts.SendInviteIdempotent | bootstrap-Jackut/P2-2023.1-JACKUT/src/br/ufal/ic/p2/jackut/models/Usuario.java:72-77 | sending an invite twice is the same as once; afterwards the invite is recorded on both sides |
| Accounts.AcceptInviteEffect | bootstrap-Jackut/P2-2023.1-JACKUT/src/br/ufal/ic/p2/jackut/models/Usuario.java:156-164 | without a pending invite, accepting returns false and changes nothing; with one, both are friends and the invite is gone from both sides |
| Accounts.AddIdolEffect | bootstrap-Jackut/P2-2023.1-JACKUT/src/br/ufal/ic/p2/jackut/models/Usuario.java:94-100 | success exactly when the idol is new; then the user is a fan of the idol; a failure changes nothing |
| Accounts.MutualCrushNotices | bootstrap-Jackut/P2-2023.1-JACKUT/src/br/ufal/ic/p2/jackut/models/Usuario.java:107-121 | the first of two crushes sends nothing; the second sends one notice to each, attributed to the other |
| Accounts.AddEnemyOneWay | bootstrap-Jackut/P2-2023.1-JACKUT/src/br/ufal/ic/p2/jackut/models/Usuario.java:128-133 | only the declaring user changes; enmity is one-way |
| Accounts.FilterNotesCounts | bootstrap-Jackut/P2-2023.1-JACKUT/src/br/ufal/ic/p2/jackut/models/Usuario.java:139-149 | the purge keeps every copy of a note text whose author is not the login and no copy of the others |
| Accounts.DropAuthorEffect | bootstrap-Jackut/P2-2023.1-JACKUT/src/br/ufal/ic/p2/jackut/models/Usuario.java:146-148 | the author map keeps exactly the entries of other authors, with their values |
| Accounts.NotesFifo | bootstrap-Jackut/P2-2023.1-JACKUT/src/br/ufal/ic/p2/jackut/models/Usuario.java:170-176 | reading notes until the queue is empty yields them in arrival order |
| Accounts.NoteReadLast | bootstrap-Jackut/P2-2023.1-JACKUT/src/br/ufal/ic/p2/jackut/models/Usuario.java:200-203 | a received note is read after every earlier one |
| Accounts.MessagesFifo | bootstrap-Jackut/P2-2023.1-JACKUT/src/br/ufal/ic/p2/jackut/models/Usuario.java:252-254 | reading messages until the queue is empty yields them in arrival order |
| Accounts.MessageReadLast | bootstrap-Jackut/P2-2023.1-JACKUT/src/br/ufal/ic/p2/jackut/models/Usuario.java:209-211 | a received message is read after every earlier one |
| Accounts.SameTextLastAuthorWins | bootstrap-Jackut/P2-2023.1-JACKUT/src/br/ufal/ic/p2/jackut/models/Usuario.java:200-203 | two notes with one text share one author entry, the later author's, so purging the earlier author removes neither |
| Accounts.ReadingErasesSharedAuthor | bootstrap-Jackut/P2-2023.1-JACKUT/src/br/ufal/ic/p2/jackut/models/Usuario.java:170-176 | reading one of two equal notes erases the author entry of both, and the other then survives its author's purge |
| UserManagement.UserManager.constructor | bootstrap-Jackut/P2-2023.1-JACKUT/src/br/ufal/ic/p2/jackut/managers/UserManager.java:15 | an empty directory |
| UserManagement.UserManager.CriarUsuario | bootstrap-Jackut/P2-2023.1-JACKUT/src/br/ufal/ic/p2/jackut/managers/UserManager.java:24-38 | the directory changes as CreateUser says: login checked, then password, then uniqueness; existing accounts are kept |
| UserManagement.UserManager.GetUsuario | bootstrap-Jackut/P2-2023.1-JACKUT/src/br/ufal/ic/p2/jackut/managers/UserManager.java:45-47 | null exactly for an unknown login, otherwise the stored account |
| UserManagement.UserManager.ContainsUsuario | bootstrap-Jackut/P2-2023.1-JACKUT/src/br/ufal/ic/p2/jackut/managers/UserManager.java:54-56 | true exactly for a stored login |
| UserManagement.UserManager.RemoverUsuario | bootstrap-Jackut/P2-2023.1-JACKUT/src/br/ufal/ic/p2/jackut/managers/UserManager.java:62-79 | the key is gone and every stored user went through the cascade, as RemoveUser says |
| UserManagement.UserManager.DesvincularTodos | bootstrap-Jackut/P2-2023.1-JACKUT/src/br/ufal/ic/p2/jackut/managers/UserManager.java:65-76 | the loop over all users detaches each of them from the login |
| UserManagement.UserManager.Clear | bootstrap-Jackut/P2-2023.1-JACKUT/src/br/ufal/ic/p2/jackut/managers/UserManager.java:84-86 | an empty directory |
| UserManagement.CreateUserEffect | bootstrap-Jackut/P2-2023.1-JACKUT/src/br/ufal/ic/p2/jackut/managers/UserManager.java:24-38 | error order InvalidLogin, InvalidPassword, AccountExists; a failure stores nothing; a success stores exactly the new account with the given login, password and name |
| UserManagement.RemoveUserEffect | bootstrap-Jackut/P2-2023.1-JACKUT/src/br/ufal/ic/p2/jackut/managers/UserManager.java:62-79 | the login is gone; no remaining user keeps it as enemy or note author; notes are filtered in order; friend, invite, idol, fan, crush sets and messages stay as they were |
| UserManagement.RemoveUserLeavesDanglingFriend | bootstrap-Jackut/P2-2023.1-JACKUT/src/br/ufal/ic/p2/jackut/managers/UserManager.java:67 | a friend of the deleted user still lists the deleted login |
| Relationships.RelationshipManager.constructor | bootstrap-Jackut/P2-2023.1-JACKUT/src/br/ufal/ic/p2/jackut/managers/RelationshipManager.java:14-16 | shares the given directory |
| Relationships.RelationshipManager.AdicionarAmigo | bootstrap-Jackut/P2-2023.1-JACKUT/src/br/ufal/ic/p2/jackut/managers/RelationshipManager.java:25-60 | the directory changes as AddFriend says: not found, enmity either way, self, already friends, then accept a pending invite, then already invited, else send an invite |
| Relationships.RelationshipManager.EnviarRecado | bootstrap-Jackut/P2-2023.1-JACKUT/src/br/ufal/ic/p2/jackut/managers/RelationshipManager.java:141-155 | as SendNote: not found, enmity, self; else one note attributed to the sender |
| Relationships.RelationshipManager.AdicionarIdolo | bootstrap-Jackut/P2-2023.1-JACKUT/src/br/ufal/ic/p2/jackut/managers/RelationshipManager.java:164-180 | as AddIdolChecked: not found, self, enmity, then the duplicate check |
| Relationships.RelationshipManager.AdicionarPaquera | bootstrap-Jackut/P2-2023.1-JACKUT/src/br/ufal/ic/p2/jackut/managers/RelationshipManager.java:189-205 | as AddCrushChecked: not found, self, enmity, then the duplicate check and the mutual notice |
| Relationships.RelationshipManager.AdicionarInimigo | bootstrap-Jackut/P2-2023.1-JACKUT/src/br/ufal/ic/p2/jackut/managers/RelationshipManager.java:213-225 | as AddEnemyChecked: not found and self only |
| Relationships.RelationshipManager.EhAmigo | bootstrap-Jackut/P2-2023.1-JACKUT/src/br/ufal/ic/p2/jackut/managers/RelationshipManager.java:68-74 | true exactly when both logins exist and each is in the other's friends |
| Relationships.RelationshipManager.EhFa | bootstrap-Jackut/P2-2023.1-JACKUT/src/br/ufal/ic/p2/jackut/managers/RelationshipManager.java:82-86 | true exactly when both logins exist and the first is among the second's fans; false, not an error, for unknown logins |
| Relationships.RelationshipManager.EhPaquera | bootstrap-Jackut/P2-2023.1-JACKUT/src/br/ufal/ic/p2/jackut/managers/RelationshipManager.java:94-97 | true exactly when the login exists and is among the user's crushes |
| Relationships.RelationshipManager.GetAmigos | bootstrap-Jackut/P2-2023.1-JACKUT/src/br/ufal/ic/p2/jackut/managers/RelationshipManager.java:104-131 | "{}" for an unknown login; otherwise the braces around some listing of the friend logins, each once |
| Relationships.RelationshipManager.GetFas | bootstrap-Jackut/P2-2023.1-JACKUT/src/br/ufal/ic/p2/jackut/managers/RelationshipManager.java:232-255 | "{}" for an unknown login; the ascending fan logins for any login but "jpsauve"; some listing of them for that one |
| Relationships.RelationshipManager.GetPaqueras | bootstrap-Jackut/P2-2023.1-JACKUT/src/br/ufal/ic/p2/jackut/managers/RelationshipManager.java:262-269 | the ascending crush logins in braces |
| Relationships.FailureChangesNothing | bootstrap-Jackut/P2-2023.1-JACKUT/src/br/ufal/ic/p2/jackut/managers/RelationshipManager.java:25-225 | every refused friend request, note, idol, crush or enemy leaves the directory as it was |
| Relationships.ErrorOrder | bootstrap-Jackut/P2-2023.1-JACKUT/src/br/ufal/ic/p2/jackut/managers/RelationshipManager.java:31-38 | friend requests and notes report enmity before the self check; idols, crushes and enemies report self first. The first order shows only for a user who is its own enemy, which no operation can produce |
| Relationships.EnmityBlocksBothWays | bootstrap-Jackut/P2-2023.1-JACKUT/src/br/ufal/ic/p2/jackut/managers/RelationshipManager.java:31-34 | an enmity declared by one side blocks friend requests, notes, idols and crushes in both directions, reporting the other user's name |
| Relationships.EnemyNotBlockedByEnmity | bootstrap-Jackut/P2-2023.1-JACKUT/src/br/ufal/ic/p2/jackut/managers/RelationshipManager.java:213-225 | an existing enmity never blocks declaring one; only the duplicate does |
| Relationships.AddFriendAccepts | bootstrap-Jackut/P2-2023.1-JACKUT/src/br/ufal/ic/p2/jackut/managers/RelationshipManager.java:47-51 | a request to a user who already invited you accepts: both are friends, and no new invite is created |
| Relationships.AddFriendInvites | bootstrap-Jackut/P2-2023.1-JACKUT/src/br/ufal/ic/p2/jackut/managers/RelationshipManager.java:53-59 | a first request only sends an invite; the two are not yet friends |
| Relationships.AddFriendAwaiting | bootstrap-Jackut/P2-2023.1-JACKUT/src/br/ufal/ic/p2/jackut/managers/RelationshipManager.java:53-55 | a repeated request while the invite is pending fails with InviteAwaitingAcceptance and changes nothing |
| Relationships.FriendHandshake | bootstrap-Jackut/P2-2023.1-JACKUT/src/br/ufal/ic/p2/jackut/managers/RelationshipManager.java:47-59 | when the friend and invite sets are mirrored, a request from each side makes two users friends, and not before the second |
| Relationships.SendNoteDelivers | bootstrap-Jackut/P2-2023.1-JACKUT/src/br/ufal/ic/p2/jackut/managers/RelationshipManager.java:141-155 | a sent note is appended once to the recipient's queue, attributed to the sender, and nobody else changes |
| Relationships.AddFriendKeepsMirrored | bootstrap-Jackut/P2-2023.1-JACKUT/src/br/ufal/ic/p2/jackut/managers/RelationshipManager.java:25-60 | friend requests keep friends, invites and idols mirrored between the two sides |
| Relationships.AcceptKeepsMirrored | bootstrap-Jackut/P2-2023.1-JACKUT/src/br/ufal/ic/p2/jackut/models/Usuario.java:156-164 | accepting an invite keeps every edge mirrored |
| Relationships.InviteKeepsMirrored | bootstrap-Jackut/P2-2023.1-JACKUT/src/br/ufal/ic/p2/jackut/models/Usuario.java:72-87 | sending an invite keeps every edge mirrored |
| Relationships.AddIdolKeepsMirrored | bootstrap-Jackut/P2-2023.1-JACKUT/src/br/ufal/ic/p2/jackut/managers/RelationshipManager.java:164-180 | a new idol keeps idol and fan mirrored |
| Relationships.AddCrushKeepsMirrored | bootstrap-Jackut/P2-2023.1-JACKUT/src/br/ufal/ic/p2/jackut/managers/RelationshipManager.java:189-205 | crushes keep the mirrored edges |
| Relationships.AddEnemyKeepsMirrored | bootstrap-Jackut/P2-2023.1-JACKUT/src/br/ufal/ic/p2/jackut/managers/RelationshipManager.java:213-225 | enemies keep the mirrored edges |
| Relationships.SendNoteKeepsMirrored | bootstrap-Jackut/P2-2023.1-JACKUT/src/br/ufal/ic/p2/jackut/managers/RelationshipManager.java:141-155 | notes keep the mirrored edges |
| Relationships.RemoveUserKeepsMirrored | bootstrap-Jackut/P2-2023.1-JACKUT/src/br/ufal/ic/p2/jackut/managers/UserManager.java:62-79 | the deletion cascade keeps the mirrored edges among the remaining users |
| Relationships.CreateUserKeepsMirrored | bootstrap-Jackut/P2-2023.1-JACKUT/src/br/ufal/ic/p2/jackut/managers/UserManager.java:24-38 | creating an account keeps the mirrored edges when no stored user refers to the new login |
| Relationships.ReRegisterBreaksMirror | bootstrap-Jackut/P2-2023.1-JACKUT/src/br/ufal/ic/p2/jackut/managers/UserManager.java:65-78 | after a friend's account is deleted and its login registered again, the old friend lists the new account while the new account lists nobody |
| Relationships.HandshakeFailsAfterReRegister | bootstrap-Jackut/P2-2023.1-JACKUT/src/br/ufal/ic/p2/jackut/managers/RelationshipManager.java:42-44 | in that state the new account's request only sends an invite, and the old friend's request is refused with AlreadyFriend, so the two never become friends |
| Relationships.RemoveUserCleanlyKeepsMirrored | bootstrap-Jackut/P2-2023.1-JACKUT/src/br/ufal/ic/p2/jackut/managers/UserManager.java:65-75 | the intended cascade keeps the mirrored edges and leaves nobody referring to the deleted login |
| Relationships.ReRegisterKeepsMirrored | bootstrap-Jackut/P2-2023.1-JACKUT/src/br/ufal/ic/p2/jackut/managers/UserManager.java:24-38 | with the intended cascade, deleting an account and registering its login again keeps the mirrored edges |
| Relationships.HandshakeAfterCleanReRegister | bootstrap-Jackut/P2-2023.1-JACKUT/src/br/ufal/ic/p2/jackut/managers/RelationshipManager.java:42-59 | with the intended cascade, the re-registered account and an old friend become friends again by a request from each side |
| Text.BelowTransitive | bootstrap-Jackut/P2-2023.1-JACKUT/src/br/ufal/ic/p2/jackut/managers/RelationshipManager.java:251 | the order `Collections.sort` uses is transitive |
| Text.BelowTotal | bootstrap-Jackut/P2-2023.1-JACKUT/src/br/ufal/ic/p2/jackut/managers/RelationshipManager.java:251 | any two different strings are ordered one way |
| Text.SortAscending | bootstrap-Jackut/P2-2023.1-JACKUT/src/br/ufal/ic/p2/jackut/managers/RelationshipManager.java:251 | sorting distinct strings gives an ascending permutation |
| Text.AscendingUnique | bootstrap-Jackut/P2-2023.1-JACKUT/src/br/ufal/ic/p2/jackut/managers/RelationshipManager.java:251 | an ascending list is fixed by its set of elements |
| Text.AscendingOfLists | bootstrap-Jackut/P2-2023.1-JACKUT/src/br/ufal/ic/p2/jackut/managers/RelationshipManager.java:251 | the ascending listing of a set lists each element once |
| Text.SortIsAscendingOf | bootstrap-Jackut/P2-2023.1-JACKUT/src/br/ufal/ic/p2/jackut/managers/RelationshipManager.java:251 | sorting any listing of a set gives the one ascending listing |
| Text.Enumerate | bootstrap-Jackut/P2-2023.1-JACKUT/src/br/ufal/ic/p2/jackut/managers/RelationshipManager.java:243-245 | the loop over a set lists each element exactly once |
| Text.IntToStringInjective | bootstrap-Jackut/P2-2023.1-JACKUT/src/br/ufal/ic/p2/jackut/managers/SessionManager.java:39 | different counter values render differently |
| Groups.Comunidade.constructor | bootstrap-Jackut/P2-2023.1-JACKUT/src/br/ufal/ic/p2/jackut/models/Comunidade.java:25-31 | name, description and owner as given, the owner the only member |
| Groups.Comunidade.AdicionarMembro | bootstrap-Jackut/P2-2023.1-JACKUT/src/br/ufal/ic/p2/jackut/models/Comunidade.java:70-74 | a join as Enroll says: AlreadyMember if present, else appended |
| Groups.NewCommunityWellFormed | bootstrap-Jackut/P2-2023.1-JACKUT/src/br/ufal/ic/p2/jackut/models/Comunidade.java:25-31 | a new community lists its owner first and nobody twice |
| Groups.EnrollKeepsWellFormed | bootstrap-Jackut/P2-2023.1-JACKUT/src/br/ufal/ic/p2/jackut/models/Comunidade.java:70-74 | joins keep the owner first and the members distinct, so the owner stays a member |
| Groups.EnrollEffect | bootstrap-Jackut/P2-2023.1-JACKUT/src/br/ufal/ic/p2/jackut/models/Comunidade.java:70-74 | refused exactly for a member, then nothing changes; otherwise appended after the earlier members in order; name, description and owner never change |
| Groups.EnrollTwice | bootstrap-Jackut/P2-2023.1-JACKUT/src/br/ufal/ic/p2/jackut/models/Comunidade.java:70-74 | joining again right after a join fails and changes nothing |
| CommunityManagement.CommunityManager.constructor | bootstrap-Jackut/P2-2023.1-JACKUT/src/br/ufal/ic/p2/jackut/managers/CommunityManager.java:25-27 | no community |
| CommunityManagement.CommunityManager.CriarComunidade | bootstrap-Jackut/P2-2023.1-JACKUT/src/br/ufal/ic/p2/jackut/managers/CommunityManager.java:36-41 | as CreateCommunity: an existing name fails with CommunityExists and changes nothing, otherwise the new community is added |
| CommunityManagement.CommunityManager.GetComunidade | bootstrap-Jackut/P2-2023.1-JACKUT/src/br/ufal/ic/p2/jackut/managers/CommunityManager.java:48-50 | null exactly for an unknown name |
| CommunityManagement.CommunityManager.GetDescricaoComunidade | bootstrap-Jackut/P2-2023.1-JACKUT/src/br/ufal/ic/p2/jackut/managers/CommunityManager.java:58-64 | the description, or CommunityNotFound |
| CommunityManagement.CommunityManager.GetDonoComunidade | bootstrap-Jackut/P2-2023.1-JACKUT/src/br/ufal/ic/p2/jackut/managers/CommunityManager.java:72-78 | the owner's login, or CommunityNotFound |
| CommunityManagement.CommunityManager.GetMembrosComunidade | bootstrap-Jackut/P2-2023.1-JACKUT/src/br/ufal/ic/p2/jackut/managers/CommunityManager.java:86-109 | CommunityNotFound for an unknown name; the ascending member logins, except for "Alunos da UFCG", which gets some listing of them |
| CommunityManagement.CommunityManager.AdicionarMembro | bootstrap-Jackut/P2-2023.1-JACKUT/src/br/ufal/ic/p2/jackut/managers/CommunityManager.java:117-123 | as AddMember: CommunityNotFound, else the community's own join |
| CommunityManagement.CommunityManager.GetComunidadesDoUsuario | bootstrap-Jackut/P2-2023.1-JACKUT/src/br/ufal/ic/p2/jackut/managers/CommunityManager.java:131-156 | UserNotFound for an unknown login; the ascending names of the communities listing the login, except for "jpsauve", which gets some listing of them |
| CommunityManagement.CommunityManager.EnviarMensagemParaComunidade | bootstrap-Jackut/P2-2023.1-JACKUT/src/br/ufal/ic/p2/jackut/managers/CommunityManager.java:165-174 | CommunityNotFound for an unknown name; otherwise the broadcast to the current members; the communities do not change |
| CommunityManagement.CommunityManager.Difundir | bootstrap-Jackut/P2-2023.1-JACKUT/src/br/ufal/ic/p2/jackut/managers/CommunityManager.java:171-173 | the loop delivers the message to the members one after another |
| CommunityManagement.CommunityManager.Entregar | bootstrap-Jackut/P2-2023.1-JACKUT/src/br/ufal/ic/p2/jackut/managers/CommunityManager.java:172 | the account stored under the login, if any, receives the message |
| CommunityManagement.CommunityManager.RemoverComunidadesDoUsuario | bootstrap-Jackut/P2-2023.1-JACKUT/src/br/ufal/ic/p2/jackut/managers/CommunityManager.java:180-192 | the two loops remove exactly the communities the user owns |
| CommunityManagement.CommunityManager.Clear | bootstrap-Jackut/P2-2023.1-JACKUT/src/br/ufal/ic/p2/jackut/managers/CommunityManager.java:197-199 | no community |
| CommunityManagement.BroadcastOnce | bootstrap-Jackut/P2-2023.1-JACKUT/src/br/ufal/ic/p2/jackut/managers/CommunityManager.java:171-173 | with distinct members, each member receives the message exactly once and everybody else nothing |
| CommunityManagement.SendToCommunityEffect | bootstrap-Jackut/P2-2023.1-JACKUT/src/br/ufal/ic/p2/jackut/managers/CommunityManager.java:165-174 | the message is appended once to each current member and to nobody else; an unknown community changes nothing |
| CommunityManagement.CreateCommunityEffect | bootstrap-Jackut/P2-2023.1-JACKUT/src/br/ufal/ic/p2/jackut/managers/CommunityManager.java:36-41 | CommunityExists exactly for a taken name; a new community has the creator as owner and only member, and the others are untouched |
| CommunityManagement.AddMemberEffect | bootstrap-Jackut/P2-2023.1-JACKUT/src/br/ufal/ic/p2/jackut/managers/CommunityManager.java:117-123 | errors CommunityNotFound then AlreadyMember change nothing; a join adds the community to the user's communities and to nobody else's |
| CommunityManagement.RemoveOwnedByEffect | bootstrap-Jackut/P2-2023.1-JACKUT/src/br/ufal/ic/p2/jackut/managers/CommunityManager.java:180-192 | exactly the owned communities go, the others are kept as they were, memberships included |
| CommunityManagement.OwnerIsMember | bootstrap-Jackut/P2-2023.1-JACKUT/src/br/ufal/ic/p2/jackut/models/Comunidade.java:29 | the owner of a community is among its members |
| SessionManagement.SessionManager.constructor | bootstrap-Jackut/P2-2023.1-JACKUT/src/br/ufal/ic/p2/jackut/managers/SessionManager.java:20-22 | no session and the counter at 1 |
| SessionManagement.SessionManager.AbrirSessao | bootstrap-Jackut/P2-2023.1-JACKUT/src/br/ufal/ic/p2/jackut/managers/SessionManager.java:31-45 | as OpenSession: unknown login or wrong password fail with InvalidCredentials and change nothing, otherwise "sessao_" + counter is mapped to the login and the counter moves on with 32-bit wrap-around |
| SessionManagement.SessionManager.GetUsuarioPorSessao | bootstrap-Jackut/P2-2023.1-JACKUT/src/br/ufal/ic/p2/jackut/managers/SessionManager.java:53-74 | UserNotFound for an empty id, an unknown id or a deleted login, otherwise the stored account of the session's login |
| SessionManagement.SessionManager.RemoveSessoesDoUsuario | bootstrap-Jackut/P2-2023.1-JACKUT/src/br/ufal/ic/p2/jackut/managers/SessionManager.java:80-82 | exactly the sessions of the login are removed |
| SessionManagement.SessionManager.Clear | bootstrap-Jackut/P2-2023.1-JACKUT/src/br/ufal/ic/p2/jackut/managers/SessionManager.java:88-91 | no session and the counter back at 1 |
| SessionManagement.OpenSessionEffect | bootstrap-Jackut/P2-2023.1-JACKUT/src/br/ufal/ic/p2/jackut/managers/SessionManager.java:31-45 | a failure changes nothing; a success issues the id of the current counter, which at once resolves to the login |
| SessionManagement.SessionIdInjective | bootstrap-Jackut/P2-2023.1-JACKUT/src/br/ufal/ic/p2/jackut/managers/SessionManager.java:39 | different counter values give different ids |
| SessionManagement.DropSessionsOfEffect | bootstrap-Jackut/P2-2023.1-JACKUT/src/br/ufal/ic/p2/jackut/managers/SessionManager.java:80-82 | the other sessions are kept; no session resolves to the removed login |
| SessionManagement.FirstIdAfterReset | bootstrap-Jackut/P2-2023.1-JACKUT/src/br/ufal/ic/p2/jackut/managers/SessionManager.java:88-91 | after a reset the next id is "sessao_1" |
| SessionManagement.AdvanceIsWrap | bootstrap-Jackut/P2-2023.1-JACKUT/src/br/ufal/ic/p2/jackut/managers/SessionManager.java:39 | k increments of the Java int counter are the start plus k, wrapped to 32 bits |
| SessionManagement.IdsDistinctBetweenResets | bootstrap-Jackut/P2-2023.1-JACKUT/src/br/ufal/ic/p2/jackut/managers/SessionManager.java:39 | fewer than 2^32 sessions opened from one counter value get different ids |
| SessionManagement.CounterWrapsAround | bootstrap-Jackut/P2-2023.1-JACKUT/src/br/ufal/ic/p2/jackut/managers/SessionManager.java:39 | the 2^32-th increment brings the counter back, so an id repeats |
| Jackut.Facade.constructor | bootstrap-Jackut/P2-2023.1-JACKUT/src/br/ufal/ic/p2/jackut/Facade.java:24-39 | the managers share one directory and the system is empty |
| Jackut.Facade.ZerarSistema | bootstrap-Jackut/P2-2023.1-JACKUT/src/br/ufal/ic/p2/jackut/Facade.java:45-49 | no users, no communities, no sessions, counter at 1 |
| Jackut.Facade.RemoverUsuario | bootstrap-Jackut/P2-2023.1-JACKUT/src/br/ufal/ic/p2/jackut/Facade.java:66-71 | as RemoveAccount: UserNotFound for an unresolved session, otherwise owned communities, then sessions, then the account with the cascade |
| Jackut.Facade.ExcluirConta | bootstrap-Jackut/P2-2023.1-JACKUT/src/br/ufal/ic/p2/jackut/Facade.java:68-70 | the three deletion steps, in that order |
| Jackut.Facade.DesfazerVinculos | bootstrap-Jackut/P2-2023.1-JACKUT/src/br/ufal/ic/p2/jackut/Facade.java:68-69 | owned communities and the user's sessions go; accounts are untouched |
| Jackut.Facade.GetAtributoUsuario | bootstrap-Jackut/P2-2023.1-JACKUT/src/br/ufal/ic/p2/jackut/Facade.java:79-94 | as UserAttribute |
| Jackut.Facade.EditarPerfil | bootstrap-Jackut/P2-2023.1-JACKUT/src/br/ufal/ic/p2/jackut/Facade.java:97-105 | as EditProfile: the session is resolved before the key is checked |
| Jackut.Facade.LerRecado | bootstrap-Jackut/P2-2023.1-JACKUT/src/br/ufal/ic/p2/jackut/Facade.java:157-165 | as ReadNoteOf: UserNotFound, then NoNotes on an empty queue, else the oldest note is popped |
| Jackut.Facade.LerMensagem | bootstrap-Jackut/P2-2023.1-JACKUT/src/br/ufal/ic/p2/jackut/Facade.java:219-225 | as ReadMessageOf: UserNotFound, then NoMessages on an empty queue, else the oldest message is popped |
| Jackut.EmptyEffect | bootstrap-Jackut/P2-2023.1-JACKUT/src/br/ufal/ic/p2/jackut/Facade.java:45-49 | the reset state has no user, no community and no session, and the next id is "sessao_1" |
| Jackut.RemoveAccountEffect | bootstrap-Jackut/P2-2023.1-JACKUT/src/br/ufal/ic/p2/jackut/Facade.java:66-71 | an unresolved session changes nothing; after a deletion the account is gone, no session resolves to it, no community is owned by it, other communities are kept, and the counter is untouched |
| Jackut.UserAttributeEffect | bootstrap-Jackut/P2-2023.1-JACKUT/src/br/ufal/ic/p2/jackut/Facade.java:79-94 | UserNotFound for an unknown user; "nome" always gives the display name, even with a "nome" profile key; another key fails with AttributeNotSet exactly when unset |
| Jackut.EditThenRead | bootstrap-Jackut/P2-2023.1-JACKUT/src/br/ufal/ic/p2/jackut/Facade.java:97-105 | errors UserNotFound then AttributeNotSet change nothing; an edit reads back, except for "nome"; every other key keeps its value |
| Jackut.ReadNoteOfEffect | bootstrap-Jackut/P2-2023.1-JACKUT/src/br/ufal/ic/p2/jackut/Facade.java:157-165 | UserNotFound, then NoNotes on an empty queue, both changing nothing; else the oldest note is returned and removed |
| Jackut.ReadMessageOfEffect | bootstrap-Jackut/P2-2023.1-JACKUT/src/br/ufal/ic/p2/jackut/Facade.java:219-225 | UserNotFound, then NoMessages on an empty queue, both changing nothing; else the oldest message is returned and removed |

## Findings

| source | as written | input that shows it | evidently intended | confidence | as-written member | corrected member |
|---|---|---|---|---|---|---|
| bootstrap-Jackut/P2-2023.1-JACKUT/src/br/ufal/ic/p2/jackut/managers/UserManager.java:65-72 | the cascade removes the deleted user from the friend, invite, idol, fan and crush sets of the copies that `Usuario.java:61-66` returns, so the real sets keep the login | A and B are friends; delete A; register "A" again; B lists A as a friend, A lists nobody, and B's request to A is refused with AlreadyFriend | the login leaves every relation set of every remaining user (`RemoveUserCleanly`), so the mirrored edges survive re-registration | high (not executed) | Relationships.ReRegisterBreaksMirror | Relationships.ReRegisterKeepsMirrored |

## Left out

- Persistence is not modelled: the XML load in the façade constructor (Facade.java:40-41), `encerrarSistema` and PersistenceManager.java are file I/O through a foreign library.
- The test runner Main.java is not modelled.
- The façade's one-line delegations (`criarUsuario`, `abrirSessao`, `adicionarAmigo`, `ehAmigo`, `getAmigos`, `enviarRecado`, community and relationship calls) are not repeated: each forwards to the manager method modelled above.
- Relationships.RelationshipManager.GetAmigos: the order of the friend logins is left unspecified (beyond each listed once). The source iterates a hash-set copy, and uses hard-coded comparators for "jpsauve" and "oabath".
- Relationships.RelationshipManager.GetFas: the "jpsauve" branch's hard-coded comparator is not modelled; that branch only promises some listing of the fans.
- CommunityManagement.CommunityManager.GetMembrosComunidade: the "Alunos da UFCG" comparator is not modelled; that branch only promises some listing of the members.
- CommunityManagement.CommunityManager.GetComunidadesDoUsuario: the "jpsauve" comparator is not modelled; that branch only promises some listing of the communities.
- Text.Below: characters are compared as Dafny `char`s, so the order matches `String.compareTo` only for characters of the Basic Multilingual Plane.
- Null strings are not modelled: Dafny strings are values, so the null branches of the login, password, key and session checks reduce to the empty-string checks.
- The unused field `recadosIdentificados` is not modelled.
- Error messages are an error datatype (`Errors.Message` gives the text); exceptions become `Outcome`/`Result` values.
- CommunityManagement.CommunityManager.EnviarMensagemParaComunidade: members are kept as logins, so the message goes to the account currently stored under each member login. The source keeps `Usuario` objects, which differs only after a member's account is deleted and its login registered again.
- Relationships.RelationshipManager.AdicionarAmigo and EnviarRecado check enmity before the self check, as the code does, although the Javadoc of `adicionarAmigo` (RelationshipManager.java:21-22) lists self-friendship before enmity. The difference shows only for a user who is its own enemy, which no operation can produce.
- The manager methods that take a `Usuario` require it to be the account stored under its login (`Stored`), which is how the façade always calls them after resolving a session.
- Some loops of the source are split into helper methods so that each proof stays small: `Usuario.Desvincular` with `UserManager.DesvincularTodos`, `CommunityManager.Difundir` with `Entregar`, and `Facade.ExcluirConta` with `DesfazerVinculos`. Each helper's contract says what its part of the source does.
