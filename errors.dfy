/** The outcomes of Jackut's operations. Every exception the Java code throws
    becomes an Error value; an operation that may throw returns an Outcome
    (no value) or a Result (a value), and a Java null becomes None. */
module Errors {

  /** One constructor per distinct exception text of the system. */
  datatype Error =
    | UserNotFound              // unknown login, or a session that does not resolve
    | EnemyOf(nome: string)     // enmity in either direction; carries the other user's display name
    | SelfFriend
    | AlreadyFriend
    | InviteAwaitingAcceptance
    | SelfNote
    | SelfFan
    | SelfCrush
    | SelfEnemy
    | AlreadyIdol
    | AlreadyCrush
    | AlreadyEnemy
    | CommunityExists
    | CommunityNotFound
    | AlreadyMember
    | InvalidLogin
    | InvalidPassword
    | AccountExists
    | InvalidCredentials
    | AttributeNotSet
    | NoNotes
    | NoMessages

  /** The exact message of the exception that each error stands for. */
  function Message(e: Error): string
  {
    match e
    case UserNotFound => "Usuário não cadastrado."
    case EnemyOf(nome) => "Função inválida: " + nome + " é seu inimigo."
    case SelfFriend => "Usuário não pode adicionar a si mesmo como amigo."
    case AlreadyFriend => "Usuário já está adicionado como amigo."
    case InviteAwaitingAcceptance => "Usuário já está adicionado como amigo, esperando aceitação do convite."
    case SelfNote => "Usuário não pode enviar recado para si mesmo."
    case SelfFan => "Usuário não pode ser fã de si mesmo."
    case SelfCrush => "Usuário não pode ser paquera de si mesmo."
    case SelfEnemy => "Usuário não pode ser inimigo de si mesmo."
    case AlreadyIdol => "Usuário já está adicionado como ídolo."
    case AlreadyCrush => "Usuário já está adicionado como paquera."
    case AlreadyEnemy => "Usuário já está adicionado como inimigo."
    case CommunityExists => "Comunidade com esse nome já existe."
    case CommunityNotFound => "Comunidade não existe."
    case AlreadyMember => "Usuario já faz parte dessa comunidade."
    case InvalidLogin => "Login inválido."
    case InvalidPassword => "Senha inválida."
    case AccountExists => "Conta com esse nome já existe."
    case InvalidCredentials => "Login ou senha inválidos."
    case AttributeNotSet => "Atributo não preenchido."
    case NoNotes => "Não há recados."
    case NoMessages => "Não há mensagens."
  }

  /** An operation that returns nothing or throws. */
  datatype Outcome = Pass | Fail(error: Error)

  /** An operation that returns a value or throws. */
  datatype Result<+T> = Ok(value: T) | Err(error: Error)

  /** A value that may be Java's null. */
  datatype Option<+T> = None | Some(value: T)
}
