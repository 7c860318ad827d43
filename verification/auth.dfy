/**
 * The user table of `auth.py`: accounts keyed by email, each with a
 * sequential internal id (the id the recommenders know the user by), the
 * quiz answers given at sign-up and the preferences drawn from them.
 * Password hashing, the password check and the clock are outside the
 * model: the hash and the time arrive as arguments and the check is a
 * function the manager is built with.
 */
module Auth {
  import opened Common

  /** A value in a quiz or preference dictionary: a list of names or one name. */
  datatype PrefValue = Names(names: seq<string>) | Name(name: string)

  /** A JSON object of quiz answers or preferences. */
  type Dict = map<string, PrefValue>

  /** One stored account. */
  datatype User = User(
    email: string, passwordHash: string, name: string, internalUserId: int,
    quizResponses: Dict, preferences: Dict, createdAt: string, lastLogin: string)

  /** `d.get(key, default)`. */
  function Get(d: Dict, key: string, default: PrefValue): PrefValue
  {
    if key in d then d[key] else default
  }

  /** `_extract_preferences`: the six preference keys, read from their quiz keys or defaulted. */
  function ExtractPreferences(quiz: Dict): Dict
  {
    map[
      "favorite_genres" := Get(quiz, "favorite_movie_genres", Names([])),
      "favorite_music_genres" := Get(quiz, "favorite_music_genres", Names([])),
      "shopping_categories" := Get(quiz, "shopping_interests", Names([])),
      "learning_interests" := Get(quiz, "learning_topics", Names([])),
      "experience_level" := Get(quiz, "experience_level", Name("beginner")),
      "budget_range" := Get(quiz, "budget_range", Name("medium"))]
  }

  /** Preference key, the quiz key it is read from, and its default. */
  const PreferenceSources: seq<(string, string, PrefValue)> := [
    ("favorite_genres", "favorite_movie_genres", Names([])),
    ("favorite_music_genres", "favorite_music_genres", Names([])),
    ("shopping_categories", "shopping_interests", Names([])),
    ("learning_interests", "learning_topics", Names([])),
    ("experience_level", "experience_level", Name("beginner")),
    ("budget_range", "budget_range", Name("medium"))]

  /**
   * The preferences hold exactly the six keys of the table, each the quiz
   * answer under its source key when there is one and the default
   * otherwise; no other quiz answer is copied.
   */
  lemma ExtractPreferencesSpec(quiz: Dict)
    ensures var prefs := ExtractPreferences(quiz);
      && (forall k :: k in prefs <==> exists i :: 0 <= i < |PreferenceSources| && PreferenceSources[i].0 == k)
      && (forall i :: 0 <= i < |PreferenceSources| ==>
            var (key, source, default) := PreferenceSources[i];
            prefs[key] == if source in quiz then quiz[source] else default)
  {
    PreferenceKeys(quiz);
    PreferenceValues(quiz);
  }

  lemma PreferenceKeys(quiz: Dict)
    ensures forall k :: k in ExtractPreferences(quiz) <==> exists i :: 0 <= i < |PreferenceSources| && PreferenceSources[i].0 == k
  {
    var prefs := ExtractPreferences(quiz);
    forall k | k in prefs ensures exists i :: 0 <= i < |PreferenceSources| && PreferenceSources[i].0 == k {
      if k == "favorite_genres" { assert PreferenceSources[0].0 == k; }
      else if k == "favorite_music_genres" { assert PreferenceSources[1].0 == k; }
      else if k == "shopping_categories" { assert PreferenceSources[2].0 == k; }
      else if k == "learning_interests" { assert PreferenceSources[3].0 == k; }
      else if k == "experience_level" { assert PreferenceSources[4].0 == k; }
      else { assert PreferenceSources[5].0 == k; }
    }
  }

  lemma PreferenceValues(quiz: Dict)
    ensures forall i :: 0 <= i < |PreferenceSources| ==>
      var (key, source, default) := PreferenceSources[i];
      key in ExtractPreferences(quiz) && ExtractPreferences(quiz)[key] == if source in quiz then quiz[source] else default
  {
    var prefs := ExtractPreferences(quiz);
    forall i | 0 <= i < |PreferenceSources|
      ensures var (key, source, default) := PreferenceSources[i];
        key in prefs && prefs[key] == if source in quiz then quiz[source] else default
    {
      if i == 0 { assert PreferenceSources[i] == ("favorite_genres", "favorite_movie_genres", Names([])); }
      else if i == 1 { assert PreferenceSources[i] == ("favorite_music_genres", "favorite_music_genres", Names([])); }
      else if i == 2 { assert PreferenceSources[i] == ("shopping_categories", "shopping_interests", Names([])); }
      else if i == 3 { assert PreferenceSources[i] == ("learning_interests", "learning_topics", Names([])); }
      else if i == 4 { assert PreferenceSources[i] == ("experience_level", "experience_level", Name("beginner")); }
      else { assert PreferenceSources[i] == ("budget_range", "budget_range", Name("medium")); }
    }
  }

  /** `preferences.update(new)`: the new answers win, every other key is kept. */
  function Merge(current: Dict, updates: Dict): (merged: Dict)
    ensures merged.Keys == current.Keys + updates.Keys
    ensures forall k :: k in updates ==> merged[k] == updates[k]
    ensures forall k :: k in current && k !in updates ==> merged[k] == current[k]
  {
    current + updates
  }

  /** Emails are the keys of their records and internal ids are distinct and within 1..|users|. */
  ghost predicate WellNumbered(users: map<string, User>)
  {
    && (forall e :: e in users ==> users[e].email == e)
    && (forall e :: e in users ==> 1 <= users[e].internalUserId <= |users|)
    && (forall e, f :: e in users && f in users && e != f ==> users[e].internalUserId != users[f].internalUserId)
  }

  /**
   * Sequential numbering stays intact when a new email is registered with
   * id `|users| + 1`: that id is new and the table remains well numbered.
   */
  lemma SequentialIds(users: map<string, User>, email: string, user: User)
    requires WellNumbered(users) && email !in users
    requires user.email == email && user.internalUserId == |users| + 1
    ensures forall e :: e in users ==> users[e].internalUserId != user.internalUserId
    ensures WellNumbered(users[email := user])
  {
    var grown := users[email := user];
    assert |grown| == |users| + 1;
  }

  class UserManager {
    /** `self.users`, keyed by email. */
    var users: map<string, User>
    /** `bcrypt.checkpw(password, hash)`. */
    const checkPassword: (string, string) -> bool

    /** A manager over the accounts read from the users file. */
    constructor (loaded: map<string, User>, checkPassword: (string, string) -> bool)
      ensures users == loaded && this.checkPassword == checkPassword
    {
      users := loaded;
      this.checkPassword := checkPassword;
    }

    /**
     * `create_user`: a registered email is refused and nothing changes;
     * otherwise the account is stored under its email with the next
     * internal id and the preferences drawn from the quiz.
     */
    method CreateUser(email: string, hash: string, name: string, quiz: Dict, now: string)
      returns (user: Option<User>, error: Option<string>)
      modifies this
      ensures email in old(users) ==> user.None? && error == Some("Email already registered") && users == old(users)
      ensures email !in old(users) ==>
                && error.None?
                && user == Some(User(email, hash, name, |old(users)| + 1, quiz, ExtractPreferences(quiz), now, now))
                && users == old(users)[email := user.value]
      ensures old(WellNumbered(users)) ==> WellNumbered(users)
    {
      if email in users {
        return None, Some("Email already registered");
      }
      var internalUserId := |users| + 1;
      var created := User(email, hash, name, internalUserId, quiz, ExtractPreferences(quiz), now, now);
      if WellNumbered(users) {
        SequentialIds(users, email, created);
      }
      users := users[email := created];
      return Some(created), None;
    }

    /**
     * `authenticate_user`: an unknown email or a failed password check is
     * an error and changes nothing; on success only the account's last
     * login time changes.
     */
    method AuthenticateUser(email: string, password: string, now: string)
      returns (user: Option<User>, error: Option<string>)
      modifies this
      ensures email !in old(users) ==> user.None? && error == Some("User not found") && users == old(users)
      ensures email in old(users) && !checkPassword(password, old(users)[email].passwordHash) ==>
                user.None? && error == Some("Incorrect password") && users == old(users)
      ensures email in old(users) && checkPassword(password, old(users)[email].passwordHash) ==>
                && error.None?
                && user == Some(old(users)[email].(lastLogin := now))
                && users == old(users)[email := user.value]
      ensures old(WellNumbered(users)) ==> WellNumbered(users)
    {
      if email !in users {
        return None, Some("User not found");
      }
      var record := users[email];
      if !checkPassword(password, record.passwordHash) {
        return None, Some("Incorrect password");
      }
      var updated := record.(lastLogin := now);
      users := users[email := updated];
      return Some(updated), None;
    }

    /** `get_user`. */
    function GetUser(email: string): (user: Option<User>)
      reads this
      ensures user.Some? <==> email in users
      ensures user.Some? ==> user.value == users[email]
    {
      if email in users then Some(users[email]) else None
    }

    /** `get_user_recommendations_id`: the stored internal id, None for an unknown email. */
    function GetUserRecommendationsId(email: string): (id: Option<int>)
      reads this
      ensures id.Some? <==> email in users
      ensures id.Some? ==> id.value == users[email].internalUserId
    {
      var user := GetUser(email);
      if user.Some? then Some(user.value.internalUserId) else None
    }

    /**
     * `update_preferences`: merges the new answers into a known account's
     * preferences and reports True; an unknown email reports False and
     * changes nothing.
     */
    method UpdatePreferences(email: string, updates: Dict) returns (ok: bool)
      modifies this
      ensures ok <==> email in old(users)
      ensures !ok ==> users == old(users)
      ensures ok ==> users == old(users)[email := old(users)[email].(preferences := Merge(old(users)[email].preferences, updates))]
      ensures old(WellNumbered(users)) ==> WellNumbered(users)
    {
      if email in users {
        var record := users[email];
        users := users[email := record.(preferences := Merge(record.preferences, updates))];
        return true;
      }
      return false;
    }
  }
}
