/**
 * The session view-model's `register` and `login`. The callback a call
 * reaches is returned as a value; the callbacks themselves are taken to
 * return normally. The view-model talks to its own `users` table.
 */
module Auth {
  import opened Entities
  import opened UserDao

  /** The one message `register` reports, whatever made the insert fail. */
  const RegistrationFailed: string := "User already exists or registration failed"

  datatype RegisterCallback = OnRegisterSuccess | OnRegisterError(message: string)

  /** `onError` of `login` is called without an argument, so it carries no detail. */
  datatype LoginCallback = OnLoginSuccess(user: User) | OnLoginError

  class AuthViewModel {
    const userDao: UserTable

    ghost predicate Valid()
      reads userDao
    {
      userDao.Valid()
    }

    constructor (userDao: UserTable)
      requires userDao.Valid()
      ensures this.userDao == userDao && Valid()
    {
      this.userDao := userDao;
    }

    /**
     * `register`: insert `User(email, name, password)` with no contacts;
     * `onSuccess` only when the insert did not abort, otherwise `onError`
     * with the fixed message and the table as it was.
     */
    method Register(name: string, email: string, password: string) returns (callback: RegisterCallback)
      requires Valid()
      modifies userDao
      ensures Valid()
      ensures callback.OnRegisterSuccess? <==> email !in old(userDao.rows)
      ensures callback.OnRegisterSuccess? ==>
                userDao.rows == old(userDao.rows)[email := User(email, name, password, [])]
      ensures callback.OnRegisterError? ==>
                callback.message == RegistrationFailed && userDao.rows == old(userDao.rows)
    {
      var ok := userDao.RegisterUser(User(email, name, password, []));
      if ok {
        callback := OnRegisterSuccess;
      } else {
        callback := OnRegisterError(RegistrationFailed);
      }
    }

    /**
     * `login`: `onSuccess` with exactly the row the query returned when it
     * found one, `onError` otherwise. The table is only read.
     */
    method Login(email: string, password: string) returns (callback: LoginCallback)
      requires Valid()
      ensures callback.OnLoginSuccess? <==> email in userDao.rows && userDao.rows[email].password == password
      ensures callback.OnLoginSuccess? ==> Some(callback.user) == SelectByCredentials(userDao.rows, email, password)
      ensures callback.OnLoginSuccess? ==>
                callback.user in userDao.rows.Values && callback.user.email == email && callback.user.password == password
    {
      var user := userDao.Login(email, password);
      if user.Some? {
        callback := OnLoginSuccess(user.value);
      } else {
        callback := OnLoginError;
      }
    }
  }

  /** Registering an email twice: success, then the error message, and the first row stays. */
  method RegisterTwice(vm: AuthViewModel, email: string, name: string, password: string, otherName: string, otherPassword: string)
    returns (first: RegisterCallback, second: RegisterCallback)
    requires vm.Valid() && email !in vm.userDao.rows
    modifies vm.userDao
    ensures first == OnRegisterSuccess
    ensures second == OnRegisterError(RegistrationFailed)
    ensures vm.userDao.rows == old(vm.userDao.rows)[email := User(email, name, password, [])]
  {
    first := vm.Register(name, email, password);
    second := vm.Register(otherName, email, otherPassword);
  }
}
